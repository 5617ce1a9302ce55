/**
 * The administrator's user page: the list it holds, and how loading, deleting
 * and activating or deactivating a user change that list and the error shown.
 */
module MemberUsersPage {

  import opened Seqs
  import opened Records

  /** The outcome of a `fetch`: an answer with its `ok` flag and body, or a throw (network or JSON). */
  datatype Net<T> = Answered(ok: bool, body: T) | Unreachable

  /** The error line of the page; NoError is the initial empty message. */
  datatype PageError = NoError | LoadFailed | DeleteFailed | UpdateFailed | Unexpected

  function IdIs(id: string): UserSummary -> bool { (u: UserSummary) => u.id == id }
  function IdIsNot(id: string): UserSummary -> bool { (u: UserSummary) => u.id != id }
  function WithActive(active: bool): UserSummary -> UserSummary { (u: UserSummary) => u.(isActive := active) }

  /** The list after a delete: every entry with that id is gone, all others stay. */
  function RemoveById(users: seq<UserSummary>, id: string): (r: seq<UserSummary>)
    ensures forall u :: u in r <==> u in users && u.id != id
  {
    Filter(users, IdIsNot(id))
  }

  /** Removal keeps the remaining entries in their original order. */
  lemma RemoveByIdKeepsOrder(a: seq<UserSummary>, b: seq<UserSummary>, id: string)
    ensures RemoveById(a + b, id) == RemoveById(a, id) + RemoveById(b, id)
  {
    FilterConcat(a, b, IdIsNot(id));
  }

  /** Removing an id that is not listed changes nothing. */
  lemma RemoveAbsentId(users: seq<UserSummary>, id: string)
    requires forall u :: u in users ==> u.id != id
    ensures RemoveById(users, id) == users
  {
    FilterKeepsAll(users, IdIsNot(id));
  }

  /**
   * The list after an activation change: every entry with that id gets `active`
   * as its `isActive`; length, order, the other entries and the other fields stay.
   */
  function SetActiveById(users: seq<UserSummary>, id: string, active: bool): (r: seq<UserSummary>)
    ensures |r| == |users|
    ensures forall i :: 0 <= i < |users| ==>
      && r[i].(isActive := users[i].isActive) == users[i]
      && r[i].isActive == if users[i].id == id then active else users[i].isActive
  {
    Update(users, IdIs(id), WithActive(active))
  }

  /** Toggling a row and toggling it back restores the list. */
  lemma ToggleTwiceRestores(users: seq<UserSummary>, id: string, active: bool)
    requires forall u :: u in users && u.id == id ==> u.isActive == active
    ensures SetActiveById(SetActiveById(users, id, !active), id, active) == users
  {
    var once := SetActiveById(users, id, !active);
    var twice := SetActiveById(once, id, active);
    forall i | 0 <= i < |users| ensures twice[i] == users[i] {
      assert users[i] in users;
    }
  }

  class UsersPage {
    var users: seq<UserSummary>
    var isLoading: bool
    var error: PageError

    constructor ()
      ensures users == [] && isLoading && error == NoError
    {
      users := [];
      isLoading := true;
      error := NoError;
    }

    /** `fetchUsers`: take the server's list on success, otherwise show an error; loading ends either way. */
    method FetchUsers(response: Net<seq<UserSummary>>)
      modifies this
      ensures !isLoading
      ensures response.Answered? && response.ok ==> users == response.body && error == old(error)
      ensures response.Answered? && !response.ok ==> users == old(users) && error == LoadFailed
      ensures response.Unreachable? ==> users == old(users) && error == Unexpected
    {
      match response {
        case Answered(ok, body) =>
          if ok {
            users := body;
          } else {
            error := LoadFailed;
          }
        case Unreachable =>
          error := Unexpected;
      }
      isLoading := false;
    }

    /**
     * `handleDeleteUser`: nothing is sent unless the confirmation is accepted; a
     * successful DELETE removes the id from the list, a failed one shows an error.
     */
    method HandleDeleteUser(userId: string, confirmed: bool, response: Net<()>) returns (sent: bool)
      modifies this
      ensures sent == confirmed
      ensures isLoading == old(isLoading)
      ensures !confirmed ==> users == old(users) && error == old(error)
      ensures confirmed && response == Answered(true, ()) ==>
        users == RemoveById(old(users), userId) && error == old(error)
      ensures confirmed && response == Answered(false, ()) ==> users == old(users) && error == DeleteFailed
      ensures confirmed && response.Unreachable? ==> users == old(users) && error == Unexpected
    {
      if !confirmed {
        return false;
      }
      sent := true;
      match response
      case Answered(ok, _) =>
        if ok {
          users := RemoveById(users, userId);
        } else {
          error := DeleteFailed;
        }
      case Unreachable =>
        error := Unexpected;
    }

    /**
     * `handleToggleUserStatus`: asks the server for the negation of the row's
     * `isActive` and, on success, writes that value into every entry with the id.
     */
    method HandleToggleUserStatus(userId: string, isActive: bool, response: Net<()>) returns (requested: bool)
      modifies this
      ensures requested == !isActive
      ensures isLoading == old(isLoading)
      ensures response == Answered(true, ()) ==>
        users == SetActiveById(old(users), userId, !isActive) && error == old(error)
      ensures response == Answered(false, ()) ==> users == old(users) && error == UpdateFailed
      ensures response.Unreachable? ==> users == old(users) && error == Unexpected
    {
      requested := !isActive;
      match response
      case Answered(ok, _) =>
        if ok {
          users := SetActiveById(users, userId, requested);
        } else {
          error := UpdateFailed;
        }
      case Unreachable =>
        error := Unexpected;
    }
  }
}
