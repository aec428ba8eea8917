/** The screen controller itself: the match state lives in fields that the handlers
    update in place. Every handler is proved to move the fields exactly as the
    matching function of MatchRules, or the matching action of Session, says. */
module Screen {
  import opened MatchRules
  import opened Session

  class MainActivity {
    /** Health counters of the two sides. */
    var playerHealth: int
    var rogueHealth: int
    /** What the two health text views show. */
    var playerLabel: Label
    var rogueLabel: Label
    /** What the message panel's text view shows. */
    var message: Msg
    /** Whether the message panel takes taps. */
    var messageClickable: bool

    /** The fields read as one match state. */
    function Snapshot(): Match
      reads this
    {
      Match(playerHealth, rogueHealth, playerLabel, rogueLabel, message, messageClickable)
    }

    ghost predicate Valid()
      reads this
    {
      MatchRules.Valid(Snapshot())
    }

    /** Screen creation: both sides start at STARTING_HEALTH with numeric labels, and
        the message panel takes taps once its listener is installed. */
    constructor ()
      ensures Valid()
      ensures Snapshot() == Initial()
    {
      message := Empty;
      messageClickable := true;
      rogueHealth := STARTING_HEALTH;
      rogueLabel := Num(rogueHealth);
      playerHealth := STARTING_HEALTH;
      playerLabel := Num(playerHealth);
    }

    /** Subtract `damage` from the player (a negative value heals), clamp at 0, and on a
        defeat show "dead", the rogue's win message and close the message panel. */
    method ChangePlayerHealth(damage: int)
      requires Valid()
      modifies this
      ensures Valid()
      ensures Snapshot() == ChangePlayer(old(Snapshot()), damage)
    {
      playerHealth := playerHealth - damage;
      if playerHealth <= 0 {
        playerHealth := 0;
        playerLabel := Dead;
        message := RogueWins;
        messageClickable := false;
      } else {
        playerLabel := Num(playerHealth);
      }
    }

    /** Subtract `damage` from the Rogue A.I. (a negative value heals), clamp at 0, and
        on a defeat show "dead", the player's win message and close the message panel. */
    method ChangeRogueHealth(damage: int)
      requires Valid()
      modifies this
      ensures Valid()
      ensures Snapshot() == ChangeRogue(old(Snapshot()), damage)
    {
      rogueHealth := rogueHealth - damage;
      if rogueHealth <= 0 {
        rogueHealth := 0;
        rogueLabel := Dead;
        message := PlayerWins;
        messageClickable := false;
      } else {
        rogueLabel := Num(rogueHealth);
      }
    }

    /** Restart: full health on both sides, empty message panel that takes taps again,
        whatever came before. */
    method OnRestartButtonClicked()
      modifies this
      ensures Valid()
      ensures Snapshot() == Initial()
      ensures forall m: Match :: Snapshot() == Step(m, Restart)
    {
      playerHealth := STARTING_HEALTH;
      playerLabel := Num(playerHealth);
      rogueHealth := STARTING_HEALTH;
      rogueLabel := Num(rogueHealth);
      message := Empty;
      messageClickable := true;
    }

    /** The message panel's tap handler, with `roll` the number the random source drew.
        It shows event `roll`'s text, then applies that event's damage, if any. */
    method OnMessageViewClicked(roll: int)
      requires Valid()
      requires 1 <= roll <= 5
      modifies this
      ensures Valid()
      ensures Snapshot() == Roll(old(Snapshot()), roll)
    {
      if roll == 1 {
        message := Event(1);
      } else if roll == 2 {
        message := Event(2);
        ChangePlayerHealth(EXTRA_DAMAGE);
      } else if roll == 3 {
        message := Event(3);
        ChangeRogueHealth(EXTRA_DAMAGE);
      } else if roll == 4 {
        message := Event(4);
      } else if roll == 5 {
        message := Event(5);
      }
    }

    /** A tap on the message panel reaches the handler only while the panel takes taps. */
    method OnMessageTapped(roll: RollValue)
      requires Valid()
      modifies this
      ensures Valid()
      ensures Snapshot() == Step(old(Snapshot()), TapMessage(roll))
    {
      if messageClickable {
        OnMessageViewClicked(roll);
      }
    }

    /** A long press on the message panel empties it. */
    method OnMessageLongClicked()
      requires Valid()
      modifies this
      ensures Valid()
      ensures Snapshot() == Step(old(Snapshot()), LongPressMessage)
    {
      message := Empty;
    }

    /** A tap on the player deals STANDARD_DAMAGE. */
    method OnPlayerTapped()
      requires Valid()
      modifies this
      ensures Valid()
      ensures Snapshot() == Step(old(Snapshot()), TapPlayer)
    {
      ChangePlayerHealth(STANDARD_DAMAGE);
    }

    /** A tap on the player's heal button passes STANDARD_HEAL. */
    method OnPlayerHealTapped()
      requires Valid()
      modifies this
      ensures Valid()
      ensures Snapshot() == Step(old(Snapshot()), HealPlayer)
    {
      ChangePlayerHealth(STANDARD_HEAL);
    }

    /** A tap on the Rogue A.I. deals STANDARD_DAMAGE. */
    method OnRogueTapped()
      requires Valid()
      modifies this
      ensures Valid()
      ensures Snapshot() == Step(old(Snapshot()), TapRogue)
    {
      ChangeRogueHealth(STANDARD_DAMAGE);
    }

    /** A tap on the Rogue A.I.'s heal button passes STANDARD_HEAL. */
    method OnRogueHealTapped()
      requires Valid()
      modifies this
      ensures Valid()
      ensures Snapshot() == Step(old(Snapshot()), HealRogue)
    {
      ChangeRogueHealth(STANDARD_HEAL);
    }
  }
}
