/** The admin user list, its search box and the delete button. */
module AdminUsers {
  import opened Text
  import opened Seqs
  import opened Types
  import opened Rows

  /** The search: the lower-cased query in the lower-cased name, or the query
      as typed in the phone number. */
  predicate UserMatches(u: User, query: string) {
    Contains(Lower(u.name), Lower(query)) || Contains(u.phone, query)
  }

  /** `handleDelete(id)`, on the list the page shows after its refetch. */
  function DeleteUser(users: seq<User>, id: string, confirmed: bool, backendOk: bool): seq<User> {
    DeleteById(users, (u: User) => u.id, id, confirmed, backendOk)
  }

  /** `filteredUsers`: the matching users, in list order. */
  function FilterUsers(users: seq<User>, query: string): (r: seq<User>)
    ensures IsSubsequence(r, users)
    ensures |r| <= |users|
    ensures forall i :: 0 <= i < |r| ==> r[i] in users && UserMatches(r[i], query)
    ensures forall i :: 0 <= i < |users| && UserMatches(users[i], query) ==> users[i] in r
  {
    var keep := (u: User) => UserMatches(u, query);
    FilterIsSubsequence(users, keep);
    Filter(users, keep)
  }

  /** An empty search shows every user, in order. */
  lemma {:induction false} EmptySearchShowsAll(users: seq<User>)
    ensures FilterUsers(users, "") == users
  {
    var keep := (u: User) => UserMatches(u, "");
    forall i | 0 <= i < |users|
      ensures keep(users[i])
    {
      assert Lower("") == [];
      ContainsEmpty(Lower(users[i].name));
    }
    FilterKeepsAll(users, keep);
  }

  /** Searching by a user's full phone number finds that user. */
  lemma PhoneSearchFindsUser(users: seq<User>, i: nat)
    requires i < |users|
    ensures users[i] in FilterUsers(users, users[i].phone)
  {
    ContainsIffOccurs(users[i].phone, users[i].phone);
    assert OccursAt(users[i].phone, users[i].phone, 0);
  }

  /** The footer's count: every registered user, whatever the search. */
  function TotalUsers(users: seq<User>, query: string): (n: nat)
    ensures n == |users|
    ensures n >= |FilterUsers(users, query)|
  {
    |users|
  }
}
