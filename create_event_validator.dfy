/**
 * CreateEventModelValidator: the rules an event must meet before it is created.
 */
module CreateEventValidator {

  import opened Wrappers
  import opened Text
  import opened ValidationErrors
  import opened ValidationResults
  import opened ModelValidator

  /** CreateEventModel; the banner image is its file name. */
  datatype CreateEventModel = CreateEventModel(name: Option<string>, description: Option<string>,
                                               scheduledDate: int, location: Option<string>,
                                               capacity: int, communityId: int, bannerImage: Option<string>)

  /** Every rule of the validator, stated directly. */
  predicate EventRulesHold(m: CreateEventModel, now: int, lookup: CommunityLookup) {
    Filled(m.name) && Filled(m.description) && m.scheduledDate > now && Filled(m.location)
    && m.capacity > 0 && lookup.Found?
    && (m.bannerImage.Some? ==> HasImageExtension(m.bannerImage.value))
  }

  /** The checks validate hands to ensure, in order. */
  function EventChecks(m: CreateEventModel, now: int, lookup: CommunityLookup): seq<Check> {
    [ NotEmpty("Name", m.name),
      NotEmpty("Description", m.description),
      IsFuture("Scheduled date", m.scheduledDate, now),
      NotEmpty("Location", m.location),
      IsPositive("Capacity", m.capacity),
      CommunityExists(m.communityId, lookup),
      IfPresentImage("Banner image", m.bannerImage) ]
  }

  /**
   * validate: a null model is the single error "Model is null"; otherwise the result
   * succeeds iff every rule holds, and lists one error per broken rule. `now` is the
   * clock reading and `lookup` what the community lookup for the model's id gave.
   */
  function Validate(model: Option<CreateEventModel>, now: int, lookup: CommunityLookup): (r: ValidationResult)
    ensures model.None? ==> !r.IsSuccess() && r.errors == [Single("Model is null")]
    ensures model.Some? ==> (r.IsSuccess() <==> EventRulesHold(model.value, now, lookup))
    ensures model.Some? ==> |r.errors| == NumFailed(EventChecks(model.value, now, lookup))
  {
    match model
    case None => OfValidationError(Single("Model is null"))
    case Some(m) =>
      var checks := EventChecks(m, now, lookup);
      EnsureSuccess(checks);
      FailuresCount(checks);
      Ensure(checks)
  }

  /** The unit test's invalid model: empty name, no description, a past date, no location, capacity -1, community 0. */
  function InvalidTestModel(now: int): CreateEventModel {
    CreateEventModel(Some(""), None, now - 1000, None, -1, 0, None)
  }

  /** The six messages the invalid model draws, in rule order. */
  const InvalidTestMessages: seq<string> :=
    [ "Name is null or empty", "Description is null or empty", "Scheduled date is not in the future",
      "Location is null or empty", "Capacity is not greater than 0", "Community not found with id: 0" ]

  lemma InvalidTestChecks(now: int)
    ensures var c := EventChecks(InvalidTestModel(now), now, NotFound);
            c[..6] == [ Some(Single(InvalidTestMessages[0])), Some(Single(InvalidTestMessages[1])),
                        Some(Single(InvalidTestMessages[2])), Some(Single(InvalidTestMessages[3])),
                        Some(Single(InvalidTestMessages[4])), Some(Single(InvalidTestMessages[5])) ]
            && c == c[..6] + [None]
  {
    var m := InvalidTestModel(now);
    NotEmptyMessages();
    OtherMessages();
    assert NotEmpty("Name", m.name) == Some(Single(InvalidTestMessages[0]));
    assert NotEmpty("Description", m.description) == Some(Single(InvalidTestMessages[1]));
    assert IsFuture("Scheduled date", m.scheduledDate, now) == Some(Single(InvalidTestMessages[2]));
    assert NotEmpty("Location", m.location) == Some(Single(InvalidTestMessages[3]));
    assert IsPositive("Capacity", m.capacity) == Some(Single(InvalidTestMessages[4]));
    assert CommunityExists(m.communityId, NotFound) == Some(Single(InvalidTestMessages[5]));
  }

  lemma NotEmptyMessages()
    ensures "Name" + " is null or empty" == InvalidTestMessages[0]
    ensures "Description" + " is null or empty" == InvalidTestMessages[1]
    ensures "Location" + " is null or empty" == InvalidTestMessages[3]
  {
  }

  lemma OtherMessages()
    ensures "Scheduled date" + " is not in the future" == InvalidTestMessages[2]
    ensures "Capacity" + " is not greater than 0" == InvalidTestMessages[4]
    ensures "Community not found with id: " + IntToString(0) == InvalidTestMessages[5]
  {
    assert IntToString(0) == "0";
  }

  /**
   * The invalid model of the validator's unit test, with its community not found, gets
   * exactly six errors, one per broken rule, in rule order.
   */
  lemma InvalidModelSixErrors(now: int)
    ensures var r := Validate(Some(InvalidTestModel(now)), now, NotFound);
            !r.IsSuccess() && |r.errors| == 6
            && forall i :: 0 <= i < 6 ==> r.errors[i] == Single(InvalidTestMessages[i])
  {
    var c := EventChecks(InvalidTestModel(now), now, NotFound);
    InvalidTestChecks(now);
    assert c == c[..6] + [None];
    FailuresAppend(c[..6], [None]);
    FailuresSingle(None);
    AllFailed(c[..6]);
  }

  /** The valid model of the unit test, with its community found, passes. */
  lemma ValidModelPasses(now: int)
    ensures Validate(Some(CreateEventModel(Some("Valid event"), Some("Valid description"), now + 1000,
                                           Some("test location"), 1, 1, None)), now, Found).IsSuccess()
  {
  }

  /** Without a banner image, the errors are exactly those of the six other rules. */
  lemma NoBannerNoBannerError(m: CreateEventModel, now: int, lookup: CommunityLookup)
    requires m.bannerImage.None?
    ensures Validate(Some(m), now, lookup).errors == Failures(EventChecks(m, now, lookup)[..6])
  {
    var c := EventChecks(m, now, lookup);
    assert c == c[..6] + [c[6]];
    FailuresAppend(c[..6], [c[6]]);
    FailuresSingle(c[6]);
  }
}
