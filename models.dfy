/**
 * The persisted records of SoundLink (users, profiles, communities and their members,
 * events, bookings, images and join requests) as values. Dates are whole numbers on
 * one time line; a nullable Java field becomes an Option.
 */
module Models {

  import opened Wrappers

  datatype User = User(id: int, username: string, hashedPassword: string, created: int, lastLogin: Option<int>)

  datatype UserProfile = UserProfile(id: int, userId: int, displayName: string, bio: Option<string>,
                                     profileImageId: Option<int>)

  datatype Community = Community(id: int, name: string, description: string, genre: string, created: int,
                                 bannerImageId: Option<int>, isPrivate: bool)

  datatype CommunityMember = CommunityMember(id: int, communityId: int, userId: int, created: int, permission: int)

  datatype Event = Event(id: int, communityId: int, name: string, description: string, venue: string,
                         capacity: int, scheduled: int, created: int, bannerImageId: Option<int>)

  datatype Booking = Booking(id: int, eventId: int, userId: int, created: int, permission: int)

  datatype Image = Image(id: int, fileName: string)

  datatype ApprovalRequest = ApprovalRequest(requestId: int, communityId: int, userId: int,
                                             requestDate: int, isApproved: bool)

  /** The logged-in user together with their community memberships. */
  datatype UserContext = UserContext(user: User, communityMembers: seq<CommunityMember>)
}
