/** A session on the screen: the user's taps, heal taps, long presses and restarts,
    applied one after another in the order they arrive. */
module Session {
  import opened MatchRules

  /** A random event number, as the screen's random source draws it: 1 to 5. */
  type RollValue = r: int | 1 <= r <= 5 witness 1

  /** One thing the user does on the screen. `TapMessage` carries the number the
      random source drew for that tap. */
  datatype Action =
    | TapPlayer
    | HealPlayer
    | TapRogue
    | HealRogue
    | TapMessage(roll: RollValue)
    | LongPressMessage
    | Restart

  /** The effect of one action. A tap on the message panel does nothing once the panel
      no longer takes taps; a restart forgets everything that came before. */
  function Step(m: Match, a: Action): (r: Match)
    ensures Valid(m) ==> Valid(r)
    ensures a.Restart? ==> r == Initial()
    ensures !m.clickable && a.TapMessage? ==> r == m
    // nothing but a restart opens the message panel again
    ensures !m.clickable && !a.Restart? ==> !r.clickable
  {
    match a
    case TapPlayer => ChangePlayer(m, STANDARD_DAMAGE)
    case HealPlayer => ChangePlayer(m, STANDARD_HEAL)
    case TapRogue => ChangeRogue(m, STANDARD_DAMAGE)
    case HealRogue => ChangeRogue(m, STANDARD_HEAL)
    case TapMessage(roll) => if m.clickable then Roll(m, roll) else m
    case LongPressMessage => Clear(m)
    case Restart => Initial()
  }

  /** The state after the actions `acts`, in order. */
  function Run(m: Match, acts: seq<Action>): Match
    decreases |acts|
  {
    if acts == [] then m else Run(Step(m, acts[0]), acts[1..])
  }

  /** `n` copies of one action. */
  function Repeat(a: Action, n: nat): seq<Action>
  {
    if n == 0 then [] else [a] + Repeat(a, n - 1)
  }

  /** Every session keeps the invariant. */
  lemma {:induction false} RunPreservesValid(m: Match, acts: seq<Action>)
    requires Valid(m)
    ensures Valid(Run(m, acts))
    decreases |acts|
  {
    if acts != [] {
      RunPreservesValid(Step(m, acts[0]), acts[1..]);
    }
  }

  /** Running two sessions back to back is running their concatenation. */
  lemma {:induction false} RunAppend(m: Match, first: seq<Action>, second: seq<Action>)
    ensures Run(m, first + second) == Run(Run(m, first), second)
    decreases |first|
  {
    if first == [] {
      assert first + second == second;
    } else {
      assert (first + second)[0] == first[0];
      assert (first + second)[1..] == first[1..] + second;
      RunAppend(Step(m, first[0]), first[1..], second);
    }
  }

  /** Once the message panel is closed it stays closed until a restart. */
  lemma {:induction false} ClosedUntilRestart(m: Match, acts: seq<Action>)
    requires !m.clickable
    requires forall i :: 0 <= i < |acts| ==> !acts[i].Restart?
    ensures !Run(m, acts).clickable
    decreases |acts|
  {
    if acts != [] {
      assert !acts[0].Restart?;
      ClosedUntilRestart(Step(m, acts[0]), acts[1..]);
    }
  }

  /** Once the message panel is closed, any number of taps on it change nothing. */
  lemma {:induction false} ClosedPanelIgnoresTaps(m: Match, acts: seq<Action>)
    requires !m.clickable
    requires forall i :: 0 <= i < |acts| ==> acts[i].TapMessage?
    ensures Run(m, acts) == m
    decreases |acts|
  {
    if acts != [] {
      assert acts[0].TapMessage?;
      ClosedPanelIgnoresTaps(Step(m, acts[0]), acts[1..]);
    }
  }

  /** `k` taps on the player deal exactly `k` damage, clamped at 0, and leave the Rogue
      A.I. alone; if they bring the player to 0 the rogue has won and the panel is closed,
      otherwise the message panel is untouched. Once at 0, more taps keep it at 0. */
  lemma {:induction false} PlayerTaps(m: Match, k: nat)
    requires Valid(m)
    ensures Valid(Run(m, Repeat(TapPlayer, k)))
    ensures Run(m, Repeat(TapPlayer, k)).player == Max0(m.player - k)
    ensures Run(m, Repeat(TapPlayer, k)).rogue == m.rogue
    ensures Run(m, Repeat(TapPlayer, k)).rogueLabel == m.rogueLabel
    ensures m.player - k > 0 ==>
      Run(m, Repeat(TapPlayer, k)).message == m.message &&
      Run(m, Repeat(TapPlayer, k)).clickable == m.clickable
    ensures k > 0 && m.player - k <= 0 ==>
      Run(m, Repeat(TapPlayer, k)).message == RogueWins &&
      !Run(m, Repeat(TapPlayer, k)).clickable
    decreases k
  {
    if k > 0 {
      var next := Step(m, TapPlayer);
      assert Repeat(TapPlayer, k)[0] == TapPlayer;
      assert Repeat(TapPlayer, k)[1..] == Repeat(TapPlayer, k - 1);
      assert Run(m, Repeat(TapPlayer, k)) == Run(next, Repeat(TapPlayer, k - 1));
      PlayerTaps(next, k - 1);
    }
  }

  /** `k` taps on the Rogue A.I. deal exactly `k` damage, clamped at 0, and leave the
      player alone; if they bring it to 0 the player has won and the panel is closed,
      otherwise the message panel is untouched. Once at 0, more taps keep it at 0. */
  lemma {:induction false} RogueTaps(m: Match, k: nat)
    requires Valid(m)
    ensures Valid(Run(m, Repeat(TapRogue, k)))
    ensures Run(m, Repeat(TapRogue, k)).rogue == Max0(m.rogue - k)
    ensures Run(m, Repeat(TapRogue, k)).player == m.player
    ensures Run(m, Repeat(TapRogue, k)).playerLabel == m.playerLabel
    ensures m.rogue - k > 0 ==>
      Run(m, Repeat(TapRogue, k)).message == m.message &&
      Run(m, Repeat(TapRogue, k)).clickable == m.clickable
    ensures k > 0 && m.rogue - k <= 0 ==>
      Run(m, Repeat(TapRogue, k)).message == PlayerWins &&
      !Run(m, Repeat(TapRogue, k)).clickable
    decreases k
  {
    if k > 0 {
      var next := Step(m, TapRogue);
      assert Repeat(TapRogue, k)[0] == TapRogue;
      assert Repeat(TapRogue, k)[1..] == Repeat(TapRogue, k - 1);
      assert Run(m, Repeat(TapRogue, k)) == Run(next, Repeat(TapRogue, k - 1));
      RogueTaps(next, k - 1);
    }
  }

  /** From a fresh match, five taps on the Rogue A.I. leave it at 95 and one heal
      then brings it to 96. */
  lemma FiveTapsThenHeal()
    ensures Run(Initial(), Repeat(TapRogue, 5)).rogue == 95
    ensures Run(Initial(), Repeat(TapRogue, 5) + [HealRogue]).rogue == 96
  {
    RogueTaps(Initial(), 5);
    RunAppend(Initial(), Repeat(TapRogue, 5), [HealRogue]);
  }

  /** A player defeated by 100 taps and then healed is back at 1 with a numeric label,
      while the rogue's win message stays and the message panel stays closed. */
  lemma DefeatIsNotSticky()
    ensures Run(Initial(), Repeat(TapPlayer, 100) + [HealPlayer]) ==
      Match(1, STARTING_HEALTH, Num(1), Num(STARTING_HEALTH), RogueWins, false)
  {
    var dead := Run(Initial(), Repeat(TapPlayer, 100));
    PlayerTaps(Initial(), 100);
    RunAppend(Initial(), Repeat(TapPlayer, 100), [HealPlayer]);
    assert Run(dead, [HealPlayer]) == ChangePlayer(dead, STANDARD_HEAL);
  }

  /** Both sides can reach 0 in one match: the Rogue A.I. falls first, then the player,
      and the later defeat's message is the one shown. */
  lemma BothSidesCanFall()
    ensures Run(Initial(), Repeat(TapRogue, 100) + Repeat(TapPlayer, 100)) ==
      Match(0, 0, Dead, Dead, RogueWins, false)
  {
    var rogueDown := Run(Initial(), Repeat(TapRogue, 100));
    RogueTaps(Initial(), 100);
    PlayerTaps(rogueDown, 100);
    RunAppend(Initial(), Repeat(TapRogue, 100), Repeat(TapPlayer, 100));
  }
}
