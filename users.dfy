/**
 * web_backend/src/handlers/users.rs: the user listing, which leaves the
 * admins out. The handler reads the table with no session check.
 */
module UsersHandler {
  import opened UserDb
  import opened Store
  import opened Responses

  /** The `filter(|user| !user.is_admin)` over the user table, order kept. */
  function NonAdmins(us: seq<User>): (r: seq<User>)
    ensures forall u :: u in r ==> !u.isAdmin && u in us
    ensures forall u :: u in us && !u.isAdmin ==> u in r
    ensures |r| <= |us|
  {
    if us == [] then []
    else (if us[0].isAdmin then [] else [us[0]]) + NonAdmins(us[1..])
  }

  /** `users`: 200 with the non-admin users of the store's user table, in table order. */
  method Users(db: Db) returns (resp: Response)
    ensures resp.status == Ok && resp.body.UserList?
    ensures forall u :: u in resp.body.users <==> u in db.users && !u.isAdmin
    ensures resp.body.users == NonAdmins(db.users)
  {
    var listed := NonAdmins(db.users);
    resp := Response(Ok, UserList(listed));
  }

  /** `xs` is `ys` with some elements dropped and the rest in their order. */
  ghost predicate SubsequenceOf(xs: seq<User>, ys: seq<User>)
    decreases |ys|
  {
    if xs == [] then true
    else if ys == [] then false
    else (xs[0] == ys[0] && SubsequenceOf(xs[1..], ys[1..])) || SubsequenceOf(xs, ys[1..])
  }

  /** The filter keeps the relative order of the users it keeps. */
  lemma {:induction false} NonAdminsKeepsOrder(us: seq<User>)
    ensures SubsequenceOf(NonAdmins(us), us)
  {
    if us != [] {
      NonAdminsKeepsOrder(us[1..]);
      var rest := NonAdmins(us[1..]);
      if us[0].isAdmin {
        assert NonAdmins(us) == rest;
        SubsequenceFromTail(rest, us);
      } else {
        assert NonAdmins(us) == [us[0]] + rest;
        assert ([us[0]] + rest)[1..] == rest;
      }
    }
  }

  /** A subsequence of the tail is a subsequence of the whole. */
  lemma {:induction false} SubsequenceFromTail(xs: seq<User>, ys: seq<User>)
    requires ys != [] && SubsequenceOf(xs, ys[1..])
    ensures SubsequenceOf(xs, ys)
  {
  }

  /** Filtering a concatenation filters each part. */
  lemma {:induction false} NonAdminsAppend(a: seq<User>, b: seq<User>)
    ensures NonAdmins(a + b) == NonAdmins(a) + NonAdmins(b)
  {
    if a != [] {
      assert (a + b)[1..] == a[1..] + b;
      NonAdminsAppend(a[1..], b);
    } else {
      assert a + b == b;
    }
  }

  /**
   * Registering a user (appended to the table, never an admin) adds exactly
   * that user at the end of the listing.
   */
  lemma RegisteredUserListed(us: seq<User>, u: User)
    requires !u.isAdmin
    ensures NonAdmins(us + [u]) == NonAdmins(us) + [u]
  {
    NonAdminsAppend(us, [u]);
    assert [u][1..] == [];
  }
}
