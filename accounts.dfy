/**
 * The user routes of the REST backend: reading, updating and soft-deleting
 * one user, and the paged list of users. A deleted user keeps its record
 * with the deletion mark set and is treated as absent from then on; a
 * caller who is not an administrator may read or update only their own
 * record.
 */
module Accounts {
  import opened Wrappers
  import Paging
  import Text

  type UserId = string

  const Admin: string := "ADMIN"

  const UserNotFound: string := "User not found"
  const NoAccess: string := "Not authorized to access this user"
  const NoUpdate: string := "Not authorized to update this user"

  /** A stored user: the role, the deletion mark and the other fields. */
  datatype Account = Account(role: string, isDeleted: bool, profile: map<string, string>)

  /** The authenticated caller. */
  datatype Caller = Caller(id: UserId, role: string)

  /** An update body: the fields it sets. */
  datatype Patch = Patch(role: Option<string>, isDeleted: Option<bool>, profile: map<string, string>)

  datatype Reply = Refused(code: nat, message: string) | Shown(account: Account) | Removed

  /** The record exists and is not deleted. */
  predicate Live(users: map<UserId, Account>, id: UserId) {
    id in users && !users[id].isDeleted
  }

  /** An administrator may touch any record, anyone else only their own. */
  predicate MayTouch(caller: Caller, id: UserId) {
    caller.role == Admin || caller.id == id
  }

  /** GET of one user: 404 for a missing or deleted user, then 403 for a
      caller who may not touch it, otherwise the record. So a record is
      shown exactly when it is live and the caller may touch it, a caller
      who is not an administrator is shown only their own record, and 403
      is given only for a live record of someone else. */
  function GetUser(users: map<UserId, Account>, caller: Caller, id: UserId): (r: Reply)
    ensures r.Shown? <==> Live(users, id) && MayTouch(caller, id)
    ensures r.Shown? ==> id in users && r.account == users[id]
    ensures r.Shown? && caller.role != Admin ==> id == caller.id
    ensures r == Refused(404, UserNotFound) <==> !Live(users, id)
    ensures r == Refused(403, NoAccess) <==> Live(users, id) && caller.role != Admin && caller.id != id
    ensures r.Shown? || r == Refused(404, UserNotFound) || r == Refused(403, NoAccess)
  {
    if !Live(users, id) then Refused(404, UserNotFound)
    else if !MayTouch(caller, id) then Refused(403, NoAccess)
    else Shown(users[id])
  }

  /** The record with the body's fields set and the others kept. */
  function Patched(a: Account, body: Patch): (r: Account)
    ensures body.role.None? ==> r.role == a.role
    ensures body.role.Some? ==> r.role == body.role.value
    ensures r.isDeleted == body.isDeleted.GetOr(a.isDeleted)
    ensures r.profile.Keys == a.profile.Keys + body.profile.Keys
    ensures forall k :: k in body.profile ==> r.profile[k] == body.profile[k]
    ensures forall k :: k in a.profile && k !in body.profile ==> r.profile[k] == a.profile[k]
  {
    Account(body.role.GetOr(a.role), body.isDeleted.GetOr(a.isDeleted), a.profile + body.profile)
  }

  /** The record kept with its deletion mark set. */
  function SoftDeleted(users: map<UserId, Account>, id: UserId): map<UserId, Account>
    requires id in users
  {
    users[id := users[id].(isDeleted := true)]
  }

  /** The users the list counts and shows. */
  function Active(users: map<UserId, Account>): (s: set<UserId>)
    ensures forall id :: id in s <==> Live(users, id)
  {
    set id | id in users && !users[id].isDeleted
  }

  /** A soft delete keeps every record, the deleted one with all its fields
      but the mark, and takes exactly that user out of the list, so it
      counts one user fewer; the user is not live afterwards, so reading,
      updating or deleting it again gives 404. */
  lemma SoftDeleteEffect(users: map<UserId, Account>, id: UserId)
    requires Live(users, id)
    ensures var after := SoftDeleted(users, id);
            && after.Keys == users.Keys
            && after[id] == users[id].(isDeleted := true)
            && !Live(after, id)
            && Active(after) == Active(users) - {id}
            && |Active(after)| == |Active(users)| - 1
  {
    var after := SoftDeleted(users, id);
    assert Active(after) == Active(users) - {id};
  }

  /** The live users of `order`, in that order. */
  function LiveIn(users: map<UserId, Account>, order: seq<UserId>): (s: seq<UserId>)
    ensures |s| <= |order|
    ensures forall i :: 0 <= i < |s| ==> Live(users, s[i]) && s[i] in order
    ensures forall id :: id in order && Live(users, id) ==> id in s
  {
    if order == [] then []
    else if Live(users, order[0]) then [order[0]] + LiveIn(users, order[1..])
    else LiveIn(users, order[1..])
  }

  /** No identifier occurs twice. */
  predicate Distinct(order: seq<UserId>) {
    forall i, j :: 0 <= i < j < |order| ==> order[i] != order[j]
  }

  /** `order` holds exactly the stored users. */
  ghost predicate ListsAll(users: map<UserId, Account>, order: seq<UserId>) {
    forall id :: id in users <==> id in order
  }

  /** The live users among `order`. */
  ghost function LiveSet(users: map<UserId, Account>, order: seq<UserId>): set<UserId> {
    set id | id in order && Live(users, id)
  }

  /** A distinct sequence's tail is distinct and lacks its head. */
  lemma DistinctTail(order: seq<UserId>)
    requires order != [] && Distinct(order)
    ensures Distinct(order[1..]) && order[0] !in order[1..]
  {
    var tail := order[1..];
    forall i, j | 0 <= i < j < |tail| ensures tail[i] != tail[j] {
      assert tail[i] == order[i + 1] && tail[j] == order[j + 1];
    }
    forall k | 0 <= k < |tail| ensures tail[k] != order[0] {
      assert tail[k] == order[k + 1];
    }
  }

  /** The live users among `order` are those of its tail and, when live,
      its head. */
  lemma LiveSetHead(users: map<UserId, Account>, order: seq<UserId>)
    requires order != []
    ensures Live(users, order[0]) ==> LiveSet(users, order) == LiveSet(users, order[1..]) + {order[0]}
    ensures !Live(users, order[0]) ==> LiveSet(users, order) == LiveSet(users, order[1..])
  {
    assert order == [order[0]] + order[1..];
  }

  /** The live users of a distinct `order` are listed once each. */
  lemma {:induction false} LiveInCount(users: map<UserId, Account>, order: seq<UserId>)
    requires Distinct(order)
    ensures |LiveIn(users, order)| == |LiveSet(users, order)|
    decreases |order|
  {
    if order == [] {
      assert LiveSet(users, order) == {};
    } else {
      DistinctTail(order);
      LiveInCount(users, order[1..]);
      LiveSetHead(users, order);
    }
  }

  /** When `order` lists every stored user once, its live users are as many
      as the users the list counts. */
  lemma ActiveCount(users: map<UserId, Account>, order: seq<UserId>)
    requires Distinct(order) && ListsAll(users, order)
    ensures |LiveIn(users, order)| == |Active(users)|
  {
    LiveInCount(users, order);
    assert LiveSet(users, order) == Active(users);
  }

  /** The records `skip` and `limit` select: none before `skip`, at most
      `limit` of them, in order. */
  function Window(s: seq<UserId>, skip: nat, limit: nat): (w: seq<UserId>)
    ensures skip >= |s| ==> w == []
    ensures skip < |s| ==> |w| == if skip + limit <= |s| then limit else |s| - skip
    ensures forall i :: 0 <= i < |w| ==> skip + i < |s| && w[i] == s[skip + i]
  {
    if skip >= |s| then [] else if skip + limit <= |s| then s[skip..skip + limit] else s[skip..]
  }

  /** The list's page description. */
  datatype Pagination = Pagination(page: int, limit: int, total: nat, pages: int)

  /** The answer of the user list: the database refuses a negative skip. */
  datatype Listing = Rejected | Listed(count: nat, data: seq<UserId>, pagination: Pagination)

  /** The magnitude of a limit: the database reads a negative limit as its
      positive counterpart. */
  function Magnitude(n: int): nat {
    if n < 0 then -n else n
  }

  /** GET of the user list, with `order` the stored users newest first:
      `page` and `limit` from the query with defaults 1 and 10, the live
      users of that page, and the page description over all live users. */
  function GetUsers(users: map<UserId, Account>, order: seq<UserId>, page: Option<string>, limit: Option<string>): (r: Listing)
    ensures var p := Paging.Param(page, Paging.DefaultPage);
            var l := Paging.Param(limit, Paging.DefaultLimit);
            && (r.Rejected? <==> Paging.Skip(p, l) < 0)
            && (r.Listed? ==>
                  && r.pagination == Pagination(p, l, |Active(users)|, Paging.CeilDiv(|Active(users)|, l))
                  && r.count == |r.data| <= Magnitude(l)
                  && (forall i :: 0 <= i < |r.data| ==> Live(users, r.data[i])))
  {
    var p := Paging.Param(page, Paging.DefaultPage);
    var l := Paging.Param(limit, Paging.DefaultLimit);
    var skip := Paging.Skip(p, l);
    if skip < 0 then Rejected
    else
      var data := Window(LiveIn(users, order), skip, Magnitude(l));
      var total := |Active(users)|;
      Listed(|data|, data, Pagination(p, l, total, Paging.CeilDiv(total, l)))
  }

  /** With positive page and limit read from the query, the answer is the
      window of the live users from (page-1)·limit on. */
  lemma ListedWindow(users: map<UserId, Account>, order: seq<UserId>, page: string, limit: string, p: int, l: int)
    requires Text.ParseInt(page) == Some(p) && p >= 1
    requires Text.ParseInt(limit) == Some(l) && l >= 1
    ensures Paging.Skip(p, l) >= 0
    ensures GetUsers(users, order, Some(page), Some(limit))
         == var data := Window(LiveIn(users, order), Paging.Skip(p, l), l);
            Listed(|data|, data, Pagination(p, l, |Active(users)|, Paging.CeilDiv(|Active(users)|, l)))
  {
    assert Paging.Param(Some(page), Paging.DefaultPage) == p;
    assert Paging.Param(Some(limit), Paging.DefaultLimit) == l;
    Paging.MulMono(0, p - 1, l);
  }

  /** With positive page and limit and `order` listing every stored user
      once, a page up to the last one is not empty and its users are the
      live users from position (page-1)·limit on. */
  lemma ListedPages(users: map<UserId, Account>, order: seq<UserId>, page: string, limit: string, p: int, l: int)
    requires Distinct(order) && ListsAll(users, order)
    requires Text.ParseInt(page) == Some(p) && p >= 1
    requires Text.ParseInt(limit) == Some(l) && l >= 1
    ensures var r := GetUsers(users, order, Some(page), Some(limit));
            && r.Listed?
            && (p <= r.pagination.pages ==> r.count > 0)
            && (forall i :: 0 <= i < r.count ==> r.data[i] == LiveIn(users, order)[Paging.Skip(p, l) + i])
  {
    ListedWindow(users, order, page, limit, p, l);
    var live := LiveIn(users, order);
    var total := |Active(users)|;
    var skip := Paging.Skip(p, l);
    var data := Window(live, skip, l);
    if p <= Paging.CeilDiv(total, l) {
      ActiveCount(users, order);
      Paging.PagesCoverRecords(p, l, total);
      assert skip < |live|;
      assert |data| > 0;
    }
  }

  /** The update copies the whole body, the role included, so a live user
      who is not an administrator may make their own record an
      administrator's; with that role the same user is then shown every
      live record. */
  lemma SelfPromotion(users: map<UserId, Account>, caller: Caller, body: Patch, other: UserId)
    requires Live(users, caller.id) && caller.role != Admin
    requires body.role == Some(Admin) && body.isDeleted != Some(true)
    ensures MayTouch(caller, caller.id)
    ensures var after := users[caller.id := Patched(users[caller.id], body)];
            && Live(after, caller.id) && after[caller.id].role == Admin
            && (Live(after, other) ==> GetUser(after, Caller(caller.id, Admin), other).Shown?)
  {
  }

  /** An update of a live record keeps every stored user and every other
      record; the record stays live unless the body itself sets the
      deletion mark, in which case the update acts as a soft delete. */
  lemma UpdateEffect(users: map<UserId, Account>, id: UserId, body: Patch)
    requires Live(users, id)
    ensures var after := users[id := Patched(users[id], body)];
            && after.Keys == users.Keys
            && (forall other :: other in users && other != id ==> after[other] == users[other])
            && (Live(after, id) <==> body.isDeleted != Some(true))
            && Active(after) == (if body.isDeleted == Some(true) then Active(users) - {id} else Active(users))
  {
    var after := users[id := Patched(users[id], body)];
    assert Active(after) == (if body.isDeleted == Some(true) then Active(users) - {id} else Active(users));
  }

  /** The stored users, changed in place by the update and delete routes. */
  class Directory {
    var users: map<UserId, Account>

    constructor (users: map<UserId, Account>)
      ensures this.users == users
    {
      this.users := users;
    }

    /** PUT of one user: 404 for a missing or deleted user, then 403 for a
        caller who may not touch it, both leaving the store as it was;
        otherwise the body's fields are written into that record alone and
        the updated record is the answer. */
    method UpdateUser(caller: Caller, id: UserId, body: Patch) returns (r: Reply)
      modifies this
      ensures !Live(old(users), id) ==> r == Refused(404, UserNotFound) && users == old(users)
      ensures Live(old(users), id) && !MayTouch(caller, id) ==> r == Refused(403, NoUpdate) && users == old(users)
      ensures Live(old(users), id) && MayTouch(caller, id) ==>
                && users == old(users)[id := Patched(old(users)[id], body)]
                && r == Shown(users[id])
    {
      if !Live(users, id) {
        return Refused(404, UserNotFound);
      }
      if !MayTouch(caller, id) {
        return Refused(403, NoUpdate);
      }
      users := users[id := Patched(users[id], body)];
      r := Shown(users[id]);
    }

    /** DELETE of one user: 404 for a missing or already deleted user,
        otherwise the record is kept with its deletion mark set. */
    method DeleteUser(id: UserId) returns (r: Reply)
      modifies this
      ensures !Live(old(users), id) ==> r == Refused(404, UserNotFound) && users == old(users)
      ensures Live(old(users), id) ==> r == Removed && users == SoftDeleted(old(users), id)
    {
      if !Live(users, id) {
        return Refused(404, UserNotFound);
      }
      users := SoftDeleted(users, id);
      r := Removed;
    }
  }
}
