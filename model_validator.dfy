/**
 * The validation helpers the validators are written with (ensure, notEmpty, isFuture,
 * isPositive, communityExists, ifPresent, isImage). ModelValidator.java itself is only
 * an interface declaring validate; the helpers' messages are those their unit tests
 * expect. A Java null is None; a File is its file name; a date is a whole number.
 */
module ModelValidator {

  import opened Wrappers
  import opened Text
  import opened ValidationErrors
  import opened ValidationResults

  type Check = Option<ValidationError>

  /** A string that is neither null nor empty. */
  predicate Filled(s: Option<string>) {
    s.Some? && s.value != ""
  }

  /** notEmpty: an error for a null or empty string. */
  function NotEmpty(name: string, value: Option<string>): (r: Check)
    ensures r.None? <==> Filled(value)
    ensures r.Some? ==> r.value == Single(name + " is null or empty")
  {
    if value.None? || value.value == "" then Some(Single(name + " is null or empty")) else None
  }

  /** isFuture: an error unless the date is strictly after `now`. */
  function IsFuture(name: string, date: int, now: int): (r: Check)
    ensures r.None? <==> date > now
    ensures r.Some? ==> r.value == Single(name + " is not in the future")
  {
    if date > now then None else Some(Single(name + " is not in the future"))
  }

  /** isPositive: an error unless the number is greater than 0. */
  function IsPositive(name: string, value: int): (r: Check)
    ensures r.None? <==> value > 0
    ensures r.Some? ==> r.value == Single(name + " is not greater than 0")
  {
    if value > 0 then None else Some(Single(name + " is not greater than 0"))
  }

  /** What CommunityFactory.get(id) gave: a community, none, or an SQLException with its message. */
  datatype CommunityLookup = Found | NotFound | Failed(message: string)

  /** communityExists: no error when the community is found. */
  function CommunityExists(communityId: int, lookup: CommunityLookup): (r: Check)
    ensures r.None? <==> lookup.Found?
    ensures lookup.NotFound? ==> r == Some(Single("Community not found with id: " + IntToString(communityId)))
    ensures lookup.Failed? ==> r == Some(Single("Internal error: " + lookup.message))
  {
    match lookup
    case Found => None
    case NotFound => Some(Single("Community not found with id: " + IntToString(communityId)))
    case Failed(msg) => Some(Single("Internal error: " + msg))
  }

  /** A file name with a PNG, JPG or JPEG extension, in any letter case. */
  predicate HasImageExtension(fileName: string) {
    var lower := ToLower(fileName);
    EndsWith(lower, ".png") || EndsWith(lower, ".jpg") || EndsWith(lower, ".jpeg")
  }

  /** isImage: an error unless the file is a PNG, JPG or JPEG image. */
  function IsImage(name: string, fileName: string): (r: Check)
    ensures r.None? <==> HasImageExtension(fileName)
    ensures r.Some? ==> r.value == Single(name + " is not a valid image")
  {
    if HasImageExtension(fileName) then None else Some(Single(name + " is not a valid image"))
  }

  /** ifPresent(name, file, isImage): an absent file is no error, a present one must be an image. */
  function IfPresentImage(name: string, file: Option<string>): (r: Check)
    ensures file.None? ==> r.None?
    ensures file.Some? ==> r == IsImage(name, file.value)
  {
    match file
    case None => None
    case Some(f) => IsImage(name, f)
  }

  /** The errors of the checks that failed, in check order. */
  function Failures(checks: seq<Check>): (r: seq<ValidationError>)
    ensures |r| <= |checks|
  {
    if checks == [] then []
    else (if checks[0].Some? then [checks[0].value] else []) + Failures(checks[1..])
  }

  function NumFailed(checks: seq<Check>): nat {
    if checks == [] then 0 else (if checks[0].Some? then 1 else 0) + NumFailed(checks[1..])
  }

  /** ensure(checks...): a result listing every failed check's error. */
  function Ensure(checks: seq<Check>): ValidationResult {
    OfErrors(Failures(checks))
  }

  /** One error per failed check, and errors only from failed checks. */
  lemma {:induction false} FailuresCount(checks: seq<Check>)
    ensures |Failures(checks)| == NumFailed(checks)
    ensures forall e :: e in Failures(checks) <==> Some(e) in checks
  {
    if checks != [] {
      FailuresCount(checks[1..]);
      assert checks == [checks[0]] + checks[1..];
    }
  }

  lemma {:induction false} FailuresAppend(a: seq<Check>, b: seq<Check>)
    ensures Failures(a + b) == Failures(a) + Failures(b)
  {
    if a == [] {
      assert a + b == b;
    } else {
      assert (a + b)[1..] == a[1..] + b;
      FailuresAppend(a[1..], b);
    }
  }

  /** A passed check adds no error, a failed one adds its own. */
  lemma FailuresSingle(c: Check)
    ensures Failures([c]) == if c.Some? then [c.value] else []
  {
    assert [c][1..] == [];
  }

  lemma {:induction false} AllFailed(checks: seq<Check>)
    requires forall i :: 0 <= i < |checks| ==> checks[i].Some?
    ensures Failures(checks) == seq(|checks|, i requires 0 <= i < |checks| => checks[i].value)
  {
    if checks != [] {
      AllFailed(checks[1..]);
    }
  }

  lemma {:induction false} AllPassed(checks: seq<Check>)
    requires forall i :: 0 <= i < |checks| ==> checks[i].None?
    ensures Failures(checks) == []
  {
    if checks != [] {
      AllPassed(checks[1..]);
    }
  }

  /** ensure succeeds iff every check passed. */
  lemma {:induction false} EnsureSuccess(checks: seq<Check>)
    ensures Ensure(checks).IsSuccess() <==> forall i :: 0 <= i < |checks| ==> checks[i].None?
    ensures Ensure(checks).errors == Failures(checks)
  {
    FailuresCount(checks);
    if exists i :: 0 <= i < |checks| && checks[i].Some? {
      var i :| 0 <= i < |checks| && checks[i].Some?;
      assert checks[i].value in Failures(checks);
    } else {
      AllPassed(checks);
    }
  }
}
