/**
 * The password gate between the two stages: a four-character input field
 * and a submit button that compares the input, exactly, with "8245".
 */
module PasswordGate {
  const CORRECT_PASSWORD: string := "8245"

  /** The `maxLength` of the input field. */
  const MAX_LENGTH: nat := 4

  /**
   * What the field holds after the user enters `value`: the field keeps at
   * most its first four characters and never alters what it keeps.
   */
  function Capped(value: string): (r: string)
    ensures |r| <= MAX_LENGTH
    ensures r <= value
    ensures |value| <= MAX_LENGTH ==> r == value
    ensures |value| >= MAX_LENGTH ==> |r| == MAX_LENGTH
  {
    if |value| <= MAX_LENGTH then value else value[..MAX_LENGTH]
  }

  /** Entering the same text twice leaves the field as entering it once. */
  lemma CappedIdempotent(value: string)
    ensures Capped(Capped(value)) == Capped(value)
  {
  }

  /** The state of the PasswordGate component; the fields are its state variables. */
  class Gate {
    var input: string
    /** Raised by a wrong submit, lowered by its expiry event. */
    var error: bool

    ghost predicate Valid()
      reads this
    {
      |input| <= MAX_LENGTH
    }

    /** Mounting the component: an empty field and no error. */
    constructor ()
      ensures Valid()
      ensures input == "" && !error
    {
      input, error := "", false;
    }

    /** The field's change handler: the text, cut to the field's length, replaces the input; the error flag is untouched. */
    method Edit(value: string)
      modifies this`input
      ensures Valid()
      ensures input == Capped(value)
    {
      input := Capped(value);
    }

    /**
     * The submit handler. The input is compared with the password as it
     * stands, with no trimming; on a match success is signalled and nothing
     * changes, otherwise the field is cleared and the error flag raised.
     * Nothing counts the attempts.
     */
    method Submit() returns (success: bool)
      requires Valid()
      modifies this
      ensures Valid()
      ensures success <==> old(input) == CORRECT_PASSWORD
      ensures success ==> unchanged(this)
      ensures !success ==> input == "" && error
    {
      success := input == CORRECT_PASSWORD;
      if !success {
        error := true;
        input := "";
      }
    }

    /** The expiry of the error display: the only event that lowers the flag. */
    method ExpireError()
      requires Valid()
      modifies this`error
      ensures Valid()
      ensures !error
    {
      error := false;
    }
  }

  /**
   * No lockout: after any run of submitted attempts, entering "8245" and
   * submitting still succeeds.
   */
  method UnlockAfterAttempts(attempts: seq<string>) returns (success: bool)
    ensures success
  {
    var gate := new Gate();
    for k := 0 to |attempts|
      invariant gate.Valid()
    {
      gate.Edit(attempts[k]);
      var accepted := gate.Submit();
    }
    gate.Edit(CORRECT_PASSWORD);
    success := gate.Submit();
  }
}
