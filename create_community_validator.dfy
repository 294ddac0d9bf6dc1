/**
 * CreateCommunityModelValidator: a community needs a name, a description and a genre,
 * and its banner, when there is one, must be an image.
 */
module CreateCommunityValidator {

  import opened Wrappers
  import opened ValidationErrors
  import opened ValidationResults
  import opened ModelValidator

  /** CreateCommunityModel; the banner image is its file name, a date a whole number. */
  datatype CreateCommunityModel = CreateCommunityModel(id: int, name: Option<string>, description: Option<string>,
                                                       genre: Option<string>, created: Option<int>,
                                                       bannerImage: Option<string>, isPrivate: Option<bool>)

  function CommunityChecks(m: CreateCommunityModel): seq<Check> {
    [ NotEmpty("Name", m.name),
      NotEmpty("Description", m.description),
      NotEmpty("Genre", m.genre),
      IfPresentImage("Banner image", m.bannerImage) ]
  }

  /**
   * validate: a null model is the single error "Model is null"; otherwise success holds
   * iff the three strings are filled and the banner, if any, is an image. The creation
   * date and the privacy flag are never looked at.
   */
  function Validate(model: Option<CreateCommunityModel>): (r: ValidationResult)
    ensures model.None? ==> !r.IsSuccess() && r.errors == [Single("Model is null")]
    ensures model.Some? ==>
              (r.IsSuccess() <==> Filled(model.value.name) && Filled(model.value.description) && Filled(model.value.genre)
                                  && (model.value.bannerImage.Some? ==> HasImageExtension(model.value.bannerImage.value)))
    ensures model.Some? ==> |r.errors| == NumFailed(CommunityChecks(model.value))
  {
    match model
    case None => OfValidationError(Single("Model is null"))
    case Some(m) =>
      var checks := CommunityChecks(m);
      EnsureSuccess(checks);
      FailuresCount(checks);
      Ensure(checks)
  }

  /** The creation date and the privacy flag do not influence the outcome. */
  lemma IgnoresCreatedAndPrivacy(m: CreateCommunityModel, created: Option<int>, isPrivate: Option<bool>)
    ensures Validate(Some(m.(created := created, isPrivate := isPrivate))) == Validate(Some(m))
  {
    assert CommunityChecks(m.(created := created, isPrivate := isPrivate)) == CommunityChecks(m);
  }

  /** Each empty string field contributes its own error: three missing fields give three errors. */
  lemma ThreeMissingFields(id: int, created: Option<int>, isPrivate: Option<bool>)
    ensures |Validate(Some(CreateCommunityModel(id, None, Some(""), None, created, None, isPrivate))).errors| == 3
  {
    var c := CommunityChecks(CreateCommunityModel(id, None, Some(""), None, created, None, isPrivate));
    assert c[0].Some? && c[1].Some? && c[2].Some? && c[3].None?;
    assert NumFailed(c[3..]) == 0 by { assert c[3..][1..] == []; }
    assert NumFailed(c[2..]) == 1 by { assert c[2..][1..] == c[3..]; }
    assert NumFailed(c[1..]) == 2 by { assert c[1..][1..] == c[2..]; }
  }
}
