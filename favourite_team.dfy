/**
 * screens/Onboarding/FavouriteTeam.tsx: the club selection and the guard
 * on Next, which calls createClubInterestAsync with two arguments, the
 * signed-in user's id and the selected clubs. That service function takes
 * only `clubIds` and posts `{ clubIds }`, so what reaches the server is the
 * first argument; both the posted body as written and the intended one are
 * modelled below.
 */
module FavouriteTeam {
  import opened Wrappers
  import opened Selection

  const NoClubMessage: string := "Please select at least 1 club to continue, else Skip"

  /** The two arguments createClubInterestAsync is called with: the user's id (possibly undefined) and the club ids. */
  datatype ClubInterestRequest = ClubInterestRequest(userId: Option<string>, clubIds: seq<string>)

  /** The value of the `clubIds` field of the posted JSON body (an undefined field is left out of it). */
  datatype PostedClubIds = Omitted | Text(text: string) | Ids(ids: seq<string>)

  /**
   * The body as written: createClubInterestAsync binds its one parameter
   * `clubIds` to the first argument, the user id, and ignores the second.
   */
  function PostedAsWritten(request: ClubInterestRequest): PostedClubIds
  {
    if request.userId.Some? then Text(request.userId.value) else Omitted
  }

  /** The body as intended: the selected club ids. */
  function Posted(request: ClubInterestRequest): PostedClubIds
  {
    Ids(request.clubIds)
  }

  /**
   * As written the selection never reaches the server: the posted field is
   * never a list of ids, and two requests for the same user post the same
   * body whatever clubs were selected.
   */
  lemma SelectionDroppedAsWritten(a: ClubInterestRequest, b: ClubInterestRequest)
    requires a.userId == b.userId
    ensures !PostedAsWritten(a).Ids?
    ensures PostedAsWritten(a) == PostedAsWritten(b)
  {
  }

  /** As intended the posted body carries the selection exactly: two bodies agree iff the selections do. */
  lemma SelectionPosted(a: ClubInterestRequest, b: ClubInterestRequest)
    ensures Posted(a).Ids? && Posted(a).ids == a.clubIds
    ensures Posted(a) == Posted(b) <==> a.clubIds == b.clubIds
  {
  }

  class FavouriteTeamScreen {
    var activeClubIds: seq<string>
    var errorMessage: string

    constructor ()
      ensures activeClubIds == [] && errorMessage == ""
    {
      activeClubIds := [];
      errorMessage := "";
    }

    /** onPressClub: clear the message and toggle the id. */
    method OnPressClub(clubId: string)
      modifies this
      ensures activeClubIds == Toggle(old(activeClubIds), clubId)
      ensures errorMessage == ""
    {
      var isActive := clubId in activeClubIds;
      errorMessage := "";
      if isActive {
        activeClubIds := Remove(activeClubIds, clubId);
      } else {
        activeClubIds := activeClubIds + [clubId];
      }
    }

    function IsClubActive(clubId: string): bool
      reads this
    {
      clubId in activeClubIds
    }

    function IsDisabled(): (r: bool)
      reads this
      ensures r <==> activeClubIds == []
    {
      !(|activeClubIds| > 0)
    }

    /**
     * onPressNextAsync up to the request: with nothing selected, set the
     * message and send nothing; otherwise call createClubInterestAsync with
     * its two arguments, `userId` and the selected ids.
     */
    method OnPressNext(userId: Option<string>) returns (request: Option<ClubInterestRequest>)
      modifies this
      ensures activeClubIds == old(activeClubIds)
      ensures request.None? <==> old(activeClubIds) == []
      ensures request.Some? ==> request.value == ClubInterestRequest(userId, activeClubIds)
                                && errorMessage == old(errorMessage)
      ensures request.None? ==> errorMessage == NoClubMessage
    {
      if IsDisabled() {
        errorMessage := NoClubMessage;
        return None;
      }
      var clubIds := activeClubIds;
      request := Some(ClubInterestRequest(userId, clubIds));
    }
  }
}
