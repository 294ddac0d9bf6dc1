/**
 * UserProfileValidator: a profile update needs a display name, and its image, when there
 * is one, must be a PNG, JPG or JPEG. The bio is never checked.
 */
module UserProfileValidator {

  import opened Wrappers
  import opened Text
  import opened ValidationErrors
  import opened ValidationResults
  import opened ModelValidator

  /** UserProfileUpdateModel; the profile image is its file name. */
  datatype UserProfileUpdateModel = UserProfileUpdateModel(id: int, displayName: Option<string>, bio: Option<string>,
                                                           profileImage: Option<string>)

  function ProfileChecks(m: UserProfileUpdateModel): seq<Check> {
    [ NotEmpty("Display name", m.displayName), IfPresentImage("Profile image", m.profileImage) ]
  }

  /**
   * validate: a null model is the single error "Model is null"; otherwise success holds
   * iff the display name is filled and the image, if any, is an image file.
   */
  function Validate(model: Option<UserProfileUpdateModel>): (r: ValidationResult)
    ensures model.None? ==> !r.IsSuccess() && r.errors == [Single("Model is null")]
    ensures model.Some? ==>
              (r.IsSuccess() <==> Filled(model.value.displayName)
                                  && (model.value.profileImage.Some? ==> HasImageExtension(model.value.profileImage.value)))
    ensures model.Some? ==> |r.errors| == NumFailed(ProfileChecks(model.value))
  {
    match model
    case None => OfValidationError(Single("Model is null"))
    case Some(m) =>
      var checks := ProfileChecks(m);
      EnsureSuccess(checks);
      FailuresCount(checks);
      Ensure(checks)
  }

  /** The bio plays no part: an empty or missing bio is accepted like any other. */
  lemma BioIgnored(m: UserProfileUpdateModel, bio: Option<string>)
    ensures Validate(Some(m.(bio := bio))) == Validate(Some(m))
  {
    assert ProfileChecks(m.(bio := bio)) == ProfileChecks(m);
  }

  /** An image file must end in .png, .jpg or .jpeg: a GIF is refused, letter case aside. */
  lemma ImageExtensions(id: int)
    ensures Validate(Some(UserProfileUpdateModel(id, Some("Al"), None, Some("me.PNG")))).IsSuccess()
    ensures !Validate(Some(UserProfileUpdateModel(id, Some("Al"), None, Some("me.gif")))).IsSuccess()
  {
    assert ToLower("me.PNG") == "me.png";
    assert ToLower("me.gif") == "me.gif";
  }
}
