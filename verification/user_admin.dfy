/** The user administration page (user-management.js): the user filter,
    the checks before a rename, and the enable/disable request. The table
    uses the shared pagination. */
module UserAdmin {
  import opened Wrappers
  import opened Text
  import opened Lists
  import opened PageWindow

  datatype UserRow = UserRow(username: string, role: string, isActive: bool)

  /** `String(is_active)`. */
  function BoolText(b: bool): string {
    if b then "true" else "false"
  }

  /** The filter form: the search text, a role ("" for any) and a status
      ("" for any, otherwise compared with "true" / "false"). */
  datatype UserFilter = UserFilter(search: string, role: string, status: string)

  predicate MatchesUser(u: UserRow, f: UserFilter) {
    Contains(Lower(u.username), Lower(f.search))
    && (f.role == "" || u.role == f.role)
    && (f.status == "" || BoolText(u.isActive) == f.status)
  }

  /** The users the filter keeps, in their order. */
  function FilterUsers(users: seq<UserRow>, f: UserFilter): (r: seq<UserRow>)
    ensures forall u :: u in r <==> u in users && MatchesUser(u, f)
  {
    Keep(users, (u: UserRow) => MatchesUser(u, f))
  }

  /** The status choices split the users: every user is kept by exactly
      one of "true" and "false". */
  lemma {:induction false} StatusChoicesSplitUsers(users: seq<UserRow>, search: string, role: string)
    ensures |FilterUsers(users, UserFilter(search, role, "true"))| + |FilterUsers(users, UserFilter(search, role, "false"))|
         == |FilterUsers(users, UserFilter(search, role, ""))|
    decreases |users|
  {
    if users != [] {
      StatusChoicesSplitUsers(users[..|users| - 1], search, role);
    }
  }

  // ---------------------------------------------------------------------
  // Rename and status requests
  // ---------------------------------------------------------------------

  datatype RenameError = OriginalMissing | NewNameEmpty | NameUnchanged

  /** saveEditUser: the new name is trimmed (the original is not); the
      original must be there, the new name must not be empty, and the two
      must differ. The result is the name sent. */
  function CheckRename(original: string, newInput: string): (r: Result<string, RenameError>)
    ensures r.Success? <==> original != "" && JsTrim(newInput) != "" && JsTrim(newInput) != original
    ensures r.Success? ==> r.value == JsTrim(newInput)
    ensures r == Failure(OriginalMissing) <==> original == ""
    ensures r == Failure(NewNameEmpty) <==> original != "" && JsTrim(newInput) == ""
  {
    var newName := JsTrim(newInput);
    if original == "" then Failure(OriginalMissing)
    else if newName == "" then Failure(NewNameEmpty)
    else if newName == original then Failure(NameUnchanged)
    else Success(newName)
  }

  /** Padding around the current name does not make it a new one. */
  lemma PaddedSameNameRejected(original: string)
    requires original != "" && !IsJsSpace(original[0]) && !IsJsSpace(original[|original| - 1])
    ensures CheckRename(original, " " + original + " ") == Failure(NameUnchanged)
  {
    var padded := " " + original + " ";
    assert padded[1..] == original + " ";
    assert DropLeading(padded, IsJsSpace) == original + " ";
    assert (original + " ")[..|original|] == original;
    assert DropTrailing(original + " ", IsJsSpace) == original;
  }

  /** The body toggleUserStatus posts. */
  datatype StatusRequest = StatusRequest(username: string, disable: bool)

  /** The button of an active user disables it and that of an inactive one
      enables it; the label and the flag always agree. */
  function ToggleRequest(username: string, isActive: bool): (r: (string, StatusRequest))
    ensures r.1.username == username
    ensures r.1.disable <==> isActive
    ensures r.0 == "disable" <==> r.1.disable
    ensures r.0 == "enable" <==> !r.1.disable
  {
    (if isActive then "disable" else "enable", StatusRequest(username, isActive))
  }

  class UserScreen {
    var allUsers: seq<UserRow>
    var filteredUsers: seq<UserRow>
    const pager: Pager

    constructor ()
      ensures pager.Valid() && pager.currentPage == 1 && pager.pageSize == 10
      ensures allUsers == [] && filteredUsers == []
    {
      allUsers, filteredUsers := [], [];
      pager := new Pager(10);
    }

    /** applyUserFilter: the matching users, the first page, pages
        recounted. */
    method ApplyUserFilter(f: UserFilter)
      requires pager.Valid()
      modifies this, pager
      ensures pager.Valid()
      ensures filteredUsers == FilterUsers(allUsers, f) && allUsers == old(allUsers)
      ensures pager.currentPage == 1 && pager.totalPages == PageCount(|filteredUsers|, pager.pageSize)
    {
      filteredUsers := Keep(allUsers, (u: UserRow) => MatchesUser(u, f));
      pager.Restart(|filteredUsers|);
    }
  }
}
