# Rogue A.I. match state, in Dafny

Rogue A.I. is a one-screen companion app for a card game. It tracks two health counters, one
for the player and one for the "Rogue A.I.". Each side has a health label that shows the number
or the "dead" string. Tapping a message panel shows one of five random events, and two of those
events deal damage. This project models the match-state logic of `MainActivity` without its
Android views and proves what each handler does to that state.

- `match_rules.dfy` (module `MatchRules`). This holds the state as values: `Label = Dead | Num(n)`,
  `Msg = Empty | Event(k) | PlayerWins | RogueWins`, the `Match` record and the invariant `Valid`.
  It also holds one specification function per operation: `ChangePlayer`, `ChangeRogue`, `Roll`,
  `Clear` and `Initial`. The constants are STARTING_HEALTH = 100, STANDARD_DAMAGE = 1,
  EXTRA_DAMAGE = 5 and STANDARD_HEAL = -1.
- `session.dfy` (module `Session`). This covers a session of user actions: taps, heal taps,
  message taps with their drawn number, long presses and restarts. `Step` applies one action and
  `Run` applies a sequence. The lemmas here are about whole sessions.
- `main_activity.dfy` (module `Screen`). The class `MainActivity` keeps the same fields that the
  Java activity mutates. Each handler is proved to change the fields exactly as the matching
  specification function says.

The model follows what the code does:
- Defeat is not sticky. A heal at health 0 gives health 1 and a numeric label. The message
  panel stays closed until a restart.
- Both sides can be at 0 at once. The later defeat's message replaces the earlier one.
- Healing has no upper cap.

The tap handler takes the random draw `ThreadLocalRandom.current().nextInt(1, 6)` as a parameter
`roll` with `1 <= roll <= 5`.

## Model

| member | source | states |
|---|---|---|
| MatchRules.Initial | app/src/main/java/com/example/android/rogueai/MainActivity.java:233-243 | the state after a restart: both healths 100 with numeric labels, empty message, panel takes taps; it satisfies the invariant |
| MatchRules.ChangePlayer | app/src/main/java/com/example/android/rogueai/MainActivity.java:184-198 | player health becomes max(0, old - damage); the label is "dead" exactly when it reaches 0; rogue health and label unchanged; a result <= 0 sets the rogue-wins message and closes the panel, a result above 0 leaves message and flag untouched; keeps the invariant |
| MatchRules.ChangeRogue | app/src/main/java/com/example/android/rogueai/MainActivity.java:213-227 | rogue health becomes max(0, old - damage); the label is "dead" exactly when it reaches 0; player health and label unchanged; a result <= 0 sets the player-wins message and closes the panel, a result above 0 leaves message and flag untouched; keeps the invariant |
| MatchRules.Roll | app/src/main/java/com/example/android/rogueai/MainActivity.java:254-272 | for a roll in 1..5: roll 2 lowers player health by 5 and roll 3 lowers rogue health by 5, both clamped at 0; rolls 1, 4, 5 change no health; the message is event r's text unless the event-2/3 damage is lethal, in which case it is the win message; the panel closes exactly on a lethal event; keeps the invariant |
| MatchRules.Clear | app/src/main/java/com/example/android/rogueai/MainActivity.java:93-98 | a long press empties the message and changes no health, label or clickable flag |
| MatchRules.ChangePlayerUndone | app/src/main/java/com/example/android/rogueai/MainActivity.java:184-198 | non-lethal damage followed by the opposite heal restores the whole state |
| MatchRules.ChangeRogueUndone | app/src/main/java/com/example/android/rogueai/MainActivity.java:213-227 | non-lethal damage followed by the opposite heal restores the whole state |
| MatchRules.HealRevivesPlayer | app/src/main/java/com/example/android/rogueai/MainActivity.java:184-198 | a heal at health 0 gives health 1 and a numeric label, but keeps the message and the closed panel |
| MatchRules.HealRevivesRogue | app/src/main/java/com/example/android/rogueai/MainActivity.java:213-227 | a heal at health 0 gives health 1 and a numeric label, but keeps the message and the closed panel |
| MatchRules.HealHasNoCap | app/src/main/java/com/example/android/rogueai/MainActivity.java:179-180 | a heal at 100 gives 101 on either side |
| MatchRules.LaterDefeatOverwrites | app/src/main/java/com/example/android/rogueai/MainActivity.java:188-192 | with the rogue already dead, a lethal hit on the player leaves both labels "dead" and shows the rogue-wins message |
| Session.Step | app/src/main/java/com/example/android/rogueai/MainActivity.java:87-169 | every action keeps the invariant; a restart gives the initial state whatever came before; a message tap on a closed panel changes nothing; only a restart reopens a closed panel |
| Session.RunPreservesValid | app/src/main/java/com/example/android/rogueai/MainActivity.java:104-112 | every session started from a valid state ends in a valid state: healths >= 0, labels "dead" exactly at 0 |
| Session.RunAppend | app/src/main/java/com/example/android/rogueai/MainActivity.java:87-169 | running two sessions one after the other equals running their concatenation |
| Session.ClosedUntilRestart | app/src/main/java/com/example/android/rogueai/MainActivity.java:188-243 | once the panel is closed, no session without a restart reopens it |
| Session.ClosedPanelIgnoresTaps | app/src/main/java/com/example/android/rogueai/MainActivity.java:223-224 | once the panel is closed, any number of message taps leave the state unchanged |
| Session.PlayerTaps | app/src/main/java/com/example/android/rogueai/MainActivity.java:145-156 | k taps on the player deal exactly k damage, clamped at 0, and leave the rogue alone; a defeat shows the rogue-wins message and closes the panel, otherwise the panel is untouched; once at 0 more taps keep it at 0 |
| Session.RogueTaps | app/src/main/java/com/example/android/rogueai/MainActivity.java:117-128 | k taps on the rogue deal exactly k damage, clamped at 0, and leave the player alone; a defeat shows the player-wins message and closes the panel, otherwise the panel is untouched; once at 0 more taps keep it at 0 |
| Session.FiveTapsThenHeal | app/src/main/java/com/example/android/rogueai/MainActivity.java:117-142 | from a fresh match five rogue taps give 95 and one rogue heal then gives 96 |
| Session.DefeatIsNotSticky | app/src/main/java/com/example/android/rogueai/MainActivity.java:158-169 | a player killed by 100 taps and then healed has health 1 and a numeric label, while the rogue-wins message and the closed panel remain |
| Session.BothSidesCanFall | app/src/main/java/com/example/android/rogueai/MainActivity.java:184-227 | 100 rogue taps then 100 player taps leave both sides dead, showing the rogue-wins message, with the panel closed |
| Screen.MainActivity.constructor | app/src/main/java/com/example/android/rogueai/MainActivity.java:86-113 | screen creation gives both sides 100 with numeric labels and a panel that takes taps |
| Screen.MainActivity.ChangePlayerHealth | app/src/main/java/com/example/android/rogueai/MainActivity.java:184-199 | the fields change exactly as ChangePlayer says; keeps the invariant |
| Screen.MainActivity.ChangeRogueHealth | app/src/main/java/com/example/android/rogueai/MainActivity.java:213-228 | the fields change exactly as ChangeRogue says; keeps the invariant |
| Screen.MainActivity.OnRestartButtonClicked | app/src/main/java/com/example/android/rogueai/MainActivity.java:233-243 | the fields become the initial state, whatever they were before |
| Screen.MainActivity.OnMessageViewClicked | app/src/main/java/com/example/android/rogueai/MainActivity.java:249-272 | the fields change exactly as Roll says for the drawn number |
| Screen.MainActivity.OnMessageTapped | app/src/main/java/com/example/android/rogueai/MainActivity.java:87-92 | a message tap runs the handler only while the panel takes taps |
| Screen.MainActivity.OnMessageLongClicked | app/src/main/java/com/example/android/rogueai/MainActivity.java:93-98 | only the message changes, to empty |
| Screen.MainActivity.OnPlayerTapped | app/src/main/java/com/example/android/rogueai/MainActivity.java:145-156 | the player takes STANDARD_DAMAGE = 1 |
| Screen.MainActivity.OnPlayerHealTapped | app/src/main/java/com/example/android/rogueai/MainActivity.java:158-169 | the player is passed STANDARD_HEAL = -1 |
| Screen.MainActivity.OnRogueTapped | app/src/main/java/com/example/android/rogueai/MainActivity.java:117-128 | the rogue takes STANDARD_DAMAGE = 1 |
| Screen.MainActivity.OnRogueHealTapped | app/src/main/java/com/example/android/rogueai/MainActivity.java:131-142 | the rogue is passed STANDARD_HEAL = -1 |

## Left out

- Android views and plumbing: view lookups, listener registration, animations, the terminal font, menu inflation and the options-menu dispatch to restart. The model has fields for what the views show, and restart is a handler of its own.
- The action-bar title call and its `NullPointerException` catch. This is a platform call with no match logic.
- The random source. The number it draws is a parameter of the tap handler, in the range 1..5 that `nextInt(1, 6)` returns.
- String resources. Messages and labels are datatype constructors, not text.
- Java's 32-bit `int` overflow. Health changes only by ±1 or 5, so the model uses unbounded integers.
- Android's click dispatch. The model assumes a panel made non-clickable delivers no taps. `Session.Step` and `Screen.MainActivity.OnMessageTapped` state this as a no-op. Whether the Android framework actually suppresses taps on a view that still has a long-click listener is framework behaviour, and it is not part of this model. `OnMessageViewClicked` itself does not check the flag, as in the source.
- The message panel's text at screen creation comes from the layout file, which is not part of this model. The constructor assumes it is empty.
- The Java fields are 0 between object construction and `onCreate`. The constructor models the state after `onCreate`.
