/**
 * UserProfileServiceImpl: fetching a user's profile and updating it from an edit form.
 * The UserProfiles table is a sequence of rows. The id the image upload gets and the
 * store failures are parameters; an exception the service does not catch ends the
 * update as Crashed.
 */
module ProfileService {

  import opened Wrappers
  import opened Models
  import opened ValidationResults
  import opened UserProfileValidator

  /** userProfileFactory.getByUserId: the first row with that user id. */
  function ProfileOf(profiles: seq<UserProfile>, userId: int): (r: Option<UserProfile>)
    ensures r.Some? ==> r.value in profiles && r.value.userId == userId
    ensures r.None? ==> forall i :: 0 <= i < |profiles| ==> profiles[i].userId != userId
  {
    if profiles == [] then None
    else if profiles[0].userId == userId then Some(profiles[0])
    else ProfileOf(profiles[1..], userId)
  }

  /** getUserProfile: the profile, or empty when the lookup throws. */
  function GetUserProfile(profiles: seq<UserProfile>, userId: int, lookupFails: bool): (r: Option<UserProfile>)
    ensures lookupFails ==> r.None?
    ensures !lookupFails ==> r == ProfileOf(profiles, userId)
  {
    if lookupFails then None else ProfileOf(profiles, userId)
  }

  /** userProfileFactory.save: every row with the profile's id takes the new values. */
  function Save(profiles: seq<UserProfile>, profile: UserProfile): (r: seq<UserProfile>)
    ensures |r| == |profiles|
    ensures forall i :: 0 <= i < |r| ==> r[i] == if profiles[i].id == profile.id then profile else profiles[i]
  {
    seq(|profiles|, i requires 0 <= i < |profiles| => if profiles[i].id == profile.id then profile else profiles[i])
  }

  /** Which store call of update throws, if any. */
  datatype ProfileFault = NoProfileFault | ProfileLookupFails | UploadFails | SaveFails

  /** How update ends: with a result, or with an exception the service does not catch. */
  datatype UpdateOutcome = Returned(result: ValidationResult) | Crashed

  /** The profile with the form's values: display name and bio, and the image id or none. */
  function Edited(profile: UserProfile, model: UserProfileUpdateModel, uploadedImageId: int): (p: UserProfile)
    ensures p.id == profile.id && p.userId == profile.userId
    ensures p.displayName == model.displayName.GetOr("") && p.bio == model.bio
    ensures p.profileImageId == if model.profileImage.Some? then Some(uploadedImageId) else None
  {
    profile.(displayName := model.displayName.GetOr(""), bio := model.bio,
             profileImageId := if model.profileImage.Some? then Some(uploadedImageId) else None)
  }

  /**
   * update: a failed validation is returned and nothing is written; otherwise the user's
   * profile (which must exist) takes the form's values and is saved, and the successful
   * validation result is returned.
   */
  function UpdateProfile(profiles: seq<UserProfile>, model: Option<UserProfileUpdateModel>, userId: int,
                  uploadedImageId: int, fault: ProfileFault): (r: (seq<UserProfile>, UpdateOutcome))
    ensures !Validate(model).IsSuccess() ==> r == (profiles, Returned(Validate(model)))
    ensures r.1.Crashed? ==> r.0 == profiles
  {
    var result := Validate(model);
    if !result.IsSuccess() then (profiles, Returned(result))
    else
      var found := GetUserProfile(profiles, userId, fault == ProfileLookupFails);
      if found.None? then (profiles, Crashed)
      else if model.value.profileImage.Some? && fault == UploadFails then (profiles, Crashed)
      else
        var edited := Edited(found.value, model.value, uploadedImageId);
        if fault == SaveFails then (profiles, Crashed) else (Save(profiles, edited), Returned(result))
  }

  /**
   * A successful update returns success and leaves the user's profile with the form's
   * display name and bio, and with the uploaded image id, or no image when none was given
   * (even if one was set before). Rows of other profiles are untouched.
   */
  lemma UpdateSucceeds(profiles: seq<UserProfile>, m: UserProfileUpdateModel, userId: int, uploadedImageId: int)
    requires Validate(Some(m)).IsSuccess()
    requires ProfileOf(profiles, userId).Some?
    ensures var (after, outcome) := UpdateProfile(profiles, Some(m), userId, uploadedImageId, NoProfileFault);
            var before := ProfileOf(profiles, userId).value;
            outcome.Returned? && outcome.result.IsSuccess()
            && |after| == |profiles|
            && (forall i :: 0 <= i < |after| && profiles[i].id == before.id ==>
                  after[i].displayName == m.displayName.value && after[i].bio == m.bio
                  && after[i].profileImageId == (if m.profileImage.Some? then Some(uploadedImageId) else None))
            && (forall i :: 0 <= i < |after| && profiles[i].id != before.id ==> after[i] == profiles[i])
  {
  }

  /** Without a new image the profile image id is cleared. */
  lemma NoImageClearsImage(profile: UserProfile, m: UserProfileUpdateModel, uploadedImageId: int)
    requires m.profileImage.None?
    ensures Edited(profile, m, uploadedImageId).profileImageId.None?
  {
  }

  /** A user without a profile makes a valid update crash, and nothing is written. */
  lemma MissingProfileCrashes(profiles: seq<UserProfile>, m: UserProfileUpdateModel, userId: int, uploadedImageId: int)
    requires Validate(Some(m)).IsSuccess()
    requires ProfileOf(profiles, userId).None?
    ensures UpdateProfile(profiles, Some(m), userId, uploadedImageId, NoProfileFault) == (profiles, Crashed)
  {
  }

  class UserProfileServiceImpl {

    /** The UserProfiles table. */
    var profiles: seq<UserProfile>

    constructor (profiles: seq<UserProfile>)
      ensures this.profiles == profiles
    {
      this.profiles := profiles;
    }

    function GetProfile(userId: int, lookupFails: bool): Option<UserProfile>
      reads this
    {
      GetUserProfile(profiles, userId, lookupFails)
    }

    method Update(model: Option<UserProfileUpdateModel>, userId: int, uploadedImageId: int, fault: ProfileFault)
      returns (outcome: UpdateOutcome)
      modifies this
      ensures (profiles, outcome) == UpdateProfile(old(profiles), model, userId, uploadedImageId, fault)
    {
      var result := Validate(model);
      if !result.IsSuccess() {
        return Returned(result);
      }
      var found := GetProfile(userId, fault == ProfileLookupFails);
      if found.None? {
        return Crashed;
      }
      var userProfile := found.value;
      userProfile := userProfile.(displayName := model.value.displayName.GetOr(""));
      userProfile := userProfile.(bio := model.value.bio);
      if model.value.profileImage.Some? {
        if fault == UploadFails {
          return Crashed;
        }
        userProfile := userProfile.(profileImageId := Some(uploadedImageId));
      } else {
        userProfile := userProfile.(profileImageId := None);
      }
      if fault == SaveFails {
        return Crashed;
      }
      profiles := Save(profiles, userProfile);
      outcome := Returned(result);
    }
  }
}
