/** `BusinessLogicInInfrastructure` of the bad-architecture sample: a
    two-stage stream filter over users and a validity predicate. */
module UserRules {
  import opened Wrappers
  import opened JavaStrings

  /** The sample's `User`, with its nullable fields. */
  datatype User = User(id: Option<int>, name: Option<string>, email: Option<string>)

  /** The first filter's test: a non-null, non-empty email. */
  predicate HasEmail(user: User)
  {
    user.email.Some? && user.email.value != []
  }

  /** The second filter's test: a non-null, non-empty name. */
  predicate HasName(user: User)
  {
    user.name.Some? && user.name.value != []
  }

  /** `xs` is `ys` with some elements dropped and the rest in the same order. */
  predicate SubsequenceOf(xs: seq<User>, ys: seq<User>)
    decreases |ys|
  {
    if xs == [] then true
    else if ys == [] then false
    else (xs[0] == ys[0] && SubsequenceOf(xs[1..], ys[1..])) || SubsequenceOf(xs, ys[1..])
  }

  /** `.filter(user -> user.getEmail() != null && !user.getEmail().isEmpty())`. */
  function FilterByEmail(users: seq<User>): (r: seq<User>)
    ensures forall u :: u in r <==> u in users && HasEmail(u)
    ensures forall u :: multiset(r)[u] == if HasEmail(u) then multiset(users)[u] else 0
    ensures SubsequenceOf(r, users)
  {
    if users == [] then []
    else
      var rest := FilterByEmail(users[1..]);
      assert users == [users[0]] + users[1..];
      if HasEmail(users[0]) then
        assert ([users[0]] + rest)[1..] == rest;
        [users[0]] + rest
      else
        SubsequenceDropFirst(rest, users);
        rest
  }

  /** `.filter(user -> user.getName() != null && !user.getName().isEmpty())`. */
  function FilterByName(users: seq<User>): (r: seq<User>)
    ensures forall u :: u in r <==> u in users && HasName(u)
    ensures forall u :: multiset(r)[u] == if HasName(u) then multiset(users)[u] else 0
    ensures SubsequenceOf(r, users)
  {
    if users == [] then []
    else
      var rest := FilterByName(users[1..]);
      assert users == [users[0]] + users[1..];
      if HasName(users[0]) then
        assert ([users[0]] + rest)[1..] == rest;
        [users[0]] + rest
      else
        SubsequenceDropFirst(rest, users);
        rest
  }

  /** A subsequence of the tail is a subsequence of the whole. */
  lemma SubsequenceDropFirst(xs: seq<User>, ys: seq<User>)
    requires ys != [] && SubsequenceOf(xs, ys[1..])
    ensures SubsequenceOf(xs, ys)
  {
  }

  /** A subsequence is never longer. */
  lemma {:induction false} SubsequenceNotLonger(xs: seq<User>, ys: seq<User>)
    requires SubsequenceOf(xs, ys)
    ensures |xs| <= |ys|
    decreases |ys|
  {
    if xs != [] {
      if xs[0] == ys[0] && SubsequenceOf(xs[1..], ys[1..]) {
        SubsequenceNotLonger(xs[1..], ys[1..]);
      } else {
        SubsequenceNotLonger(xs, ys[1..]);
      }
    }
  }

  /** Being a subsequence is transitive. */
  lemma {:induction false} SubsequenceTransitive(xs: seq<User>, ys: seq<User>, zs: seq<User>)
    requires SubsequenceOf(xs, ys) && SubsequenceOf(ys, zs)
    ensures SubsequenceOf(xs, zs)
    decreases |zs|
  {
    if xs != [] {
      assert ys != [] && zs != [];
      if ys[0] == zs[0] && SubsequenceOf(ys[1..], zs[1..]) {
        if xs[0] == ys[0] && SubsequenceOf(xs[1..], ys[1..]) {
          SubsequenceTransitive(xs[1..], ys[1..], zs[1..]);
        } else {
          SubsequenceTransitive(xs, ys[1..], zs[1..]);
        }
      } else {
        SubsequenceTransitive(xs, ys, zs[1..]);
      }
    }
  }

  /** `filterActiveUsers`: the email filter, then the name filter. */
  function FilterActiveUsers(users: seq<User>): (r: seq<User>)
    ensures forall u :: u in r <==> u in users && HasEmail(u) && HasName(u)
    ensures forall u :: multiset(r)[u] == if HasEmail(u) && HasName(u) then multiset(users)[u] else 0
  {
    FilterByName(FilterByEmail(users))
  }

  /** The result keeps the input's order and is never longer than the input. */
  lemma FilterActiveUsersIsSubsequence(users: seq<User>)
    ensures SubsequenceOf(FilterActiveUsers(users), users)
    ensures |FilterActiveUsers(users)| <= |users|
  {
    SubsequenceTransitive(FilterActiveUsers(users), FilterByEmail(users), users);
    SubsequenceNotLonger(FilterActiveUsers(users), users);
  }

  /** A filter keeps a list whose every element passes it. */
  lemma {:induction false} FilterByEmailKeepsPassing(users: seq<User>)
    requires forall u :: u in users ==> HasEmail(u)
    ensures FilterByEmail(users) == users
  {
    if users != [] {
      FilterByEmailKeepsPassing(users[1..]);
      assert [users[0]] + users[1..] == users;
    }
  }

  lemma {:induction false} FilterByNameKeepsPassing(users: seq<User>)
    requires forall u :: u in users ==> HasName(u)
    ensures FilterByName(users) == users
  {
    if users != [] {
      FilterByNameKeepsPassing(users[1..]);
      assert [users[0]] + users[1..] == users;
    }
  }

  /** Filtering an already filtered list changes nothing. */
  lemma FilterActiveUsersIdempotent(users: seq<User>)
    ensures FilterActiveUsers(FilterActiveUsers(users)) == FilterActiveUsers(users)
  {
    var once := FilterActiveUsers(users);
    FilterByEmailKeepsPassing(once);
    FilterByNameKeepsPassing(once);
  }

  /** `isValidUser`: a non-null user with a non-null name and an email containing `@`. */
  predicate IsValidUser(user: Option<User>)
  {
    && user.Some?
    && user.value.name.Some?
    && user.value.email.Some?
    && Contains(user.value.email.value, "@")
  }

  /** A valid user always has a non-empty email, so only the name can drop it from the filter. */
  lemma ValidUserPassesEmailFilter(user: User)
    requires IsValidUser(Some(user))
    ensures HasEmail(user)
    ensures HasName(user) ==> FilterActiveUsers([user]) == [user]
  {
    var i: nat :| i <= |user.email.value| && OccursAt(user.email.value, "@", i);
    if HasName(user) {
      FilterByEmailKeepsPassing([user]);
      FilterByNameKeepsPassing([user]);
    }
  }

  /** `isValidUser` accepts an empty name, and every valid user with an empty
      name is dropped by `filterActiveUsers`, from any list. */
  lemma ValidUserWithEmptyNameIsFilteredOut(user: User, users: seq<User>)
    requires IsValidUser(Some(user)) && user.name == Some("")
    ensures user !in FilterActiveUsers(users)
  {
  }

  /** Such users exist: `isValidUser` holds of one that `filterActiveUsers` drops. */
  lemma ValidUserMayBeFilteredOut()
    ensures IsValidUser(Some(User(None, Some(""), Some("@"))))
    ensures FilterActiveUsers([User(None, Some(""), Some("@"))]) == []
  {
    assert OccursAt("@", "@", 0);
  }
}
