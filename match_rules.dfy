/** The match state of the Rogue A.I. companion screen, as values.
    The screen holds two health counters, one health label per side, the text of the
    message panel and whether the message panel takes taps. The functions below say what
    each operation of the screen does to that state; the class in main_activity.dfy
    updates its fields in place and is proved to follow them. */
module MatchRules {

  /** Health each side starts with, on creation and on restart. */
  const STARTING_HEALTH: int := 100
  /** Damage dealt by one tap on a combatant. */
  const STANDARD_DAMAGE: int := 1
  /** Damage dealt by the event-2 and event-3 random events. */
  const EXTRA_DAMAGE: int := 5
  /** Healing is damage with a negative sign: one tap on a heal button. */
  const STANDARD_HEAL: int := -1

  /** What a health label shows: the "dead" string or the health number. */
  datatype Label = Dead | Num(n: int)

  /** What the message panel shows: nothing, the text of random event k (1 to 5),
      or one of the two end-of-match texts. */
  datatype Msg = Empty | Event(k: int) | PlayerWins | RogueWins

  /** The whole match state of the screen. */
  datatype Match = Match(
    player: int,
    rogue: int,
    playerLabel: Label,
    rogueLabel: Label,
    message: Msg,
    clickable: bool)

  /** The health after subtracting damage, with nothing below 0. */
  function Max0(x: int): nat
  {
    if x > 0 then x else 0
  }

  /** The label a side with health h shows once its health has been clamped. */
  function LabelFor(h: int): Label
  {
    if h == 0 then Dead else Num(h)
  }

  /** The invariant every operation keeps: no health is negative, and each label is
      "dead" exactly when its health is 0 and shows the health number otherwise. */
  predicate Valid(m: Match)
  {
    m.player >= 0 && m.rogue >= 0 &&
    m.playerLabel == LabelFor(m.player) &&
    m.rogueLabel == LabelFor(m.rogue)
  }

  /** The state after a restart: both sides at full health with numeric labels,
      an empty message panel that takes taps again. */
  function Initial(): (r: Match)
    ensures Valid(r)
    ensures r.player == STARTING_HEALTH && r.rogue == STARTING_HEALTH
    ensures r.playerLabel == Num(STARTING_HEALTH) && r.rogueLabel == Num(STARTING_HEALTH)
    ensures r.message == Empty && r.clickable
  {
    Match(STARTING_HEALTH, STARTING_HEALTH, Num(STARTING_HEALTH), Num(STARTING_HEALTH), Empty, true)
  }

  /** The player takes `damage` (negative damage heals). */
  function ChangePlayer(m: Match, damage: int): (r: Match)
    ensures r.player == Max0(m.player - damage)
    ensures r.player == 0 <==> m.player - damage <= 0
    ensures r.playerLabel == LabelFor(r.player)
    ensures r.rogue == m.rogue && r.rogueLabel == m.rogueLabel
    // a defeat writes the rogue's win message and closes the message panel
    ensures m.player - damage <= 0 ==> r.message == RogueWins && !r.clickable
    // anything else leaves the message panel as it was
    ensures m.player - damage > 0 ==> r.message == m.message && r.clickable == m.clickable
    ensures Valid(m) ==> Valid(r)
  {
    var h := m.player - damage;
    if h <= 0 then
      m.(player := 0, playerLabel := Dead, message := RogueWins, clickable := false)
    else
      m.(player := h, playerLabel := Num(h))
  }

  /** The Rogue A.I. takes `damage` (negative damage heals). */
  function ChangeRogue(m: Match, damage: int): (r: Match)
    ensures r.rogue == Max0(m.rogue - damage)
    ensures r.rogue == 0 <==> m.rogue - damage <= 0
    ensures r.rogueLabel == LabelFor(r.rogue)
    ensures r.player == m.player && r.playerLabel == m.playerLabel
    // a defeat writes the player's win message and closes the message panel
    ensures m.rogue - damage <= 0 ==> r.message == PlayerWins && !r.clickable
    // anything else leaves the message panel as it was
    ensures m.rogue - damage > 0 ==> r.message == m.message && r.clickable == m.clickable
    ensures Valid(m) ==> Valid(r)
  {
    var h := m.rogue - damage;
    if h <= 0 then
      m.(rogue := 0, rogueLabel := Dead, message := PlayerWins, clickable := false)
    else
      m.(rogue := h, rogueLabel := Num(h))
  }

  /** Random event `roll`: its text is shown; event 2 hurts the player and event 3 the
      Rogue A.I. by EXTRA_DAMAGE, in which case a defeat overwrites the event text. */
  function Roll(m: Match, roll: int): (r: Match)
    requires 1 <= roll <= 5
    ensures r.player == if roll == 2 then Max0(m.player - EXTRA_DAMAGE) else m.player
    ensures r.rogue == if roll == 3 then Max0(m.rogue - EXTRA_DAMAGE) else m.rogue
    ensures r.message ==
      if roll == 2 && m.player - EXTRA_DAMAGE <= 0 then RogueWins
      else if roll == 3 && m.rogue - EXTRA_DAMAGE <= 0 then PlayerWins
      else Event(roll)
    ensures r.clickable <==>
      m.clickable &&
      !(roll == 2 && m.player - EXTRA_DAMAGE <= 0) &&
      !(roll == 3 && m.rogue - EXTRA_DAMAGE <= 0)
    ensures roll != 2 ==> r.playerLabel == m.playerLabel
    ensures roll != 3 ==> r.rogueLabel == m.rogueLabel
    ensures Valid(m) ==> Valid(r)
  {
    var shown := m.(message := Event(roll));
    if roll == 2 then ChangePlayer(shown, EXTRA_DAMAGE)
    else if roll == 3 then ChangeRogue(shown, EXTRA_DAMAGE)
    else shown
  }

  /** A long press on the message panel empties it and touches nothing else. */
  function Clear(m: Match): (r: Match)
    ensures r.message == Empty
    ensures r.player == m.player && r.rogue == m.rogue
    ensures r.playerLabel == m.playerLabel && r.rogueLabel == m.rogueLabel
    ensures r.clickable == m.clickable
    ensures Valid(m) ==> Valid(r)
  {
    m.(message := Empty)
  }

  /** Damage followed by the opposite heal gives the player back the state it had,
      as long as the damage was not lethal. */
  lemma ChangePlayerUndone(m: Match, damage: int)
    requires Valid(m)
    requires m.player > 0 && m.player - damage > 0
    ensures ChangePlayer(ChangePlayer(m, damage), -damage) == m
  {
  }

  /** Damage followed by the opposite heal gives the Rogue A.I. back the state it had,
      as long as the damage was not lethal. */
  lemma ChangeRogueUndone(m: Match, damage: int)
    requires Valid(m)
    requires m.rogue > 0 && m.rogue - damage > 0
    ensures ChangeRogue(ChangeRogue(m, damage), -damage) == m
  {
  }

  /** Defeat is not sticky: a heal at health 0 brings the side back to 1 with a numeric
      label, but the message panel stays closed and keeps its end-of-match text. */
  lemma HealRevivesPlayer(m: Match)
    requires Valid(m) && m.player == 0
    ensures ChangePlayer(m, STANDARD_HEAL).player == 1
    ensures ChangePlayer(m, STANDARD_HEAL).playerLabel == Num(1)
    ensures ChangePlayer(m, STANDARD_HEAL).clickable == m.clickable
    ensures ChangePlayer(m, STANDARD_HEAL).message == m.message
  {
  }

  /** The same for the Rogue A.I. */
  lemma HealRevivesRogue(m: Match)
    requires Valid(m) && m.rogue == 0
    ensures ChangeRogue(m, STANDARD_HEAL).rogue == 1
    ensures ChangeRogue(m, STANDARD_HEAL).rogueLabel == Num(1)
    ensures ChangeRogue(m, STANDARD_HEAL).clickable == m.clickable
    ensures ChangeRogue(m, STANDARD_HEAL).message == m.message
  {
  }

  /** Healing has no upper cap: full health 100 becomes 101. */
  lemma HealHasNoCap(m: Match)
    requires Valid(m) && m.player == STARTING_HEALTH && m.rogue == STARTING_HEALTH
    ensures ChangePlayer(m, STANDARD_HEAL).player == 101
    ensures ChangeRogue(m, STANDARD_HEAL).rogue == 101
  {
  }

  /** Both sides can be dead at once; the later defeat's message wins. */
  lemma LaterDefeatOverwrites(m: Match, damage: int)
    requires Valid(m) && m.rogue == 0 && m.message == PlayerWins
    requires m.player - damage <= 0
    ensures ChangePlayer(m, damage).playerLabel == Dead
    ensures ChangePlayer(m, damage).rogueLabel == Dead
    ensures ChangePlayer(m, damage).message == RogueWins
  {
  }
}
