/**
 * ValidationError, a RuntimeException: built from one message, or from a list of errors,
 * whose messages are combined into the message of an inner error passed as the cause.
 */
module ValidationErrors {

  import opened Wrappers
  import opened Text

  /** The fully qualified class name, which Throwable.toString puts before the message. */
  const ClassName: string := "hub.troubleshooters.soundlink.core.validation.ValidationError"

  datatype ValidationError = ValidationError(message: string, cause: Option<ValidationError>)

  /** The single-message constructor. */
  function Single(message: string): (e: ValidationError)
    ensures e.message == message && e.cause == None
  {
    ValidationError(message, None)
  }

  /** One error's message in braces. */
  function Braced(e: ValidationError): string {
    "{" + e.message + "}"
  }

  function BracedAll(errors: seq<ValidationError>): (r: seq<string>)
    ensures |r| == |errors|
    ensures forall i :: 0 <= i < |errors| ==> r[i] == Braced(errors[i])
  {
    seq(|errors|, i requires 0 <= i < |errors| => Braced(errors[i]))
  }

  /** Stream.reduce((msg, acc) -> msg + "," + acc) over a sequential stream: a left fold. */
  function Reduce(pieces: seq<string>): Option<string> {
    if |pieces| == 0 then None
    else if |pieces| == 1 then Some(pieces[0])
    else Some(Reduce(pieces[..|pieces| - 1]).GetOr("") + "," + pieces[|pieces| - 1])
  }

  /** The text the list constructor combines: the reduction, or "" for no errors. */
  function CombinedText(errors: seq<ValidationError>): string {
    Reduce(BracedAll(errors)).GetOr("")
  }

  /** Throwable.toString of an error: its class name, then ": " and the message. */
  function ToString(e: ValidationError): string {
    ClassName + ": " + e.message
  }

  /**
   * The list constructor: super(cause) makes the cause's toString the message, and the
   * cause is a single-message error holding the combined text.
   */
  function Combined(errors: seq<ValidationError>): (e: ValidationError)
    ensures e.cause == Some(Single(CombinedText(errors)))
    ensures e.message == ClassName + ": " + CombinedText(errors)
  {
    var inner := Single(CombinedText(errors));
    ValidationError(ToString(inner), Some(inner))
  }

  lemma {:induction false} ReduceIsJoin(pieces: seq<string>)
    ensures Reduce(pieces).GetOr("") == Join(pieces, ',')
    decreases |pieces|
  {
    if |pieces| > 1 {
      var init := pieces[..|pieces| - 1];
      ReduceIsJoin(init);
      JoinSnoc(init, pieces[|pieces| - 1], ',');
      assert init + [pieces[|pieces| - 1]] == pieces;
    }
  }

  /** The combined text is every message in braces, in list order, separated by single commas. */
  lemma CombinedTextIsJoin(errors: seq<ValidationError>)
    ensures CombinedText(errors) == Join(BracedAll(errors), ',')
  {
    ReduceIsJoin(BracedAll(errors));
  }

  /** No errors give the empty combined text; one error gives its message in braces. */
  lemma CombinedTextSmall(e: ValidationError)
    ensures CombinedText([]) == ""
    ensures CombinedText([e]) == "{" + e.message + "}"
  {
  }

  /** Two errors: both messages in braces, joined by one comma. */
  lemma CombinedTextTwo(a: ValidationError, b: ValidationError)
    ensures CombinedText([a, b]) == "{" + a.message + "},{" + b.message + "}"
  {
    var p := BracedAll([a, b]);
    assert p == [Braced(a), Braced(b)];
    assert p[..1] == [Braced(a)];
    assert Reduce(p) == Some(Braced(a) + "," + Braced(b));
  }
}
