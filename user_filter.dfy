/** The role filter of stage-to-lower (stage-to-lower/lib/user-filter.js): drop
    every user holding a forbidden role, then, when some role is required,
    keep only users holding one. */
module UserFilter {

  /** A user record of the users API. Only `roles` (role ID to role name) is
      consulted; the descriptive fields travel through untouched and are
      summed up by `uid`. */
  datatype User = User(uid: string, roles: map<string, string>)

  /** `Object.values(user.roles).some(role => names.includes(role))`: some
      role name of the user is listed; the role IDs play no part. */
  predicate HoldsAnyOf(user: User, names: seq<string>) {
    exists role :: role in user.roles.Values && role in names
  }

  /** `xs` is `ys` with some elements dropped and the rest in their order. */
  predicate IsSubsequence<T(==)>(xs: seq<T>, ys: seq<T>)
    decreases |ys|
  {
    if xs == [] then true
    else if ys == [] then false
    else (xs[0] == ys[0] && IsSubsequence(xs[1..], ys[1..])) || IsSubsequence(xs, ys[1..])
  }

  /** `Array.prototype.filter`: the elements `keep` accepts, in order. */
  function Filter<T>(xs: seq<T>, keep: T -> bool): seq<T> {
    if xs == [] then []
    else (if keep(xs[0]) then [xs[0]] else []) + Filter(xs[1..], keep)
  }

  /** A filtered list is a subsequence of the original holding each accepted
      element as often as the original does, and nothing else. */
  lemma {:induction false} FilterMeaning<T(!new)>(xs: seq<T>, keep: T -> bool)
    ensures IsSubsequence(Filter(xs, keep), xs)
    ensures forall x :: multiset(Filter(xs, keep))[x] == if keep(x) then multiset(xs)[x] else 0
    ensures forall x :: x in Filter(xs, keep) <==> x in xs && keep(x)
  {
    if xs != [] {
      var rest := Filter(xs[1..], keep);
      FilterMeaning(xs[1..], keep);
      assert xs == [xs[0]] + xs[1..];
      if keep(xs[0]) {
        assert ([xs[0]] + rest)[1..] == rest;
      } else {
        assert Filter(xs, keep) == rest;
      }
    }
  }

  /** Filtering twice keeps what both tests accept. */
  lemma {:induction false} FilterTwice<T(!new)>(xs: seq<T>, first: T -> bool, second: T -> bool, both: T -> bool)
    requires forall x :: both(x) == (first(x) && second(x))
    ensures Filter(Filter(xs, first), second) == Filter(xs, both)
  {
    if xs != [] {
      FilterTwice(xs[1..], first, second, both);
      var passed := Filter(xs[1..], first);
      if first(xs[0]) {
        assert Filter(xs, first) == [xs[0]] + passed;
        assert ([xs[0]] + passed)[1..] == passed;
      } else {
        assert Filter(xs, first) == passed;
      }
    }
  }

  /** A user survives the filter: no forbidden role, and a required role when
      any is required. */
  predicate Kept(user: User, requiredRoles: seq<string>, forbiddenRoles: seq<string>) {
    !HoldsAnyOf(user, forbiddenRoles) && (|requiredRoles| == 0 || HoldsAnyOf(user, requiredRoles))
  }

  /** The exported filter: the forbidden pass, then the required pass when
      the required list is non-empty. */
  function FilterUsers(users: seq<User>, requiredRoles: seq<string>, forbiddenRoles: seq<string>): seq<User> {
    var screened := Filter(users, (u: User) => !HoldsAnyOf(u, forbiddenRoles));
    if |requiredRoles| > 0 then Filter(screened, (u: User) => HoldsAnyOf(u, requiredRoles))
    else screened
  }

  /** The filter keeps exactly the users `Kept` accepts, in their order and
      with their multiplicity. */
  lemma FilterUsersMeaning(users: seq<User>, requiredRoles: seq<string>, forbiddenRoles: seq<string>)
    ensures var r := FilterUsers(users, requiredRoles, forbiddenRoles);
            && IsSubsequence(r, users)
            && (forall u :: multiset(r)[u] == if Kept(u, requiredRoles, forbiddenRoles) then multiset(users)[u] else 0)
            && (forall u :: u in r <==> u in users && Kept(u, requiredRoles, forbiddenRoles))
  {
    var screen := (u: User) => !HoldsAnyOf(u, forbiddenRoles);
    var admit := (u: User) => HoldsAnyOf(u, requiredRoles);
    var kept := (u: User) => Kept(u, requiredRoles, forbiddenRoles);
    if |requiredRoles| > 0 {
      FilterTwice(users, screen, admit, kept);
      FilterMeaning(users, kept);
    } else {
      FilterMeaning(users, screen);
    }
  }

  /** The filter in a single pass, user by user: the reference it is
      checked against. */
  function KeptUsers(users: seq<User>, requiredRoles: seq<string>, forbiddenRoles: seq<string>): seq<User> {
    if users == [] then []
    else
      (if Kept(users[0], requiredRoles, forbiddenRoles) then [users[0]] else []) +
      KeptUsers(users[1..], requiredRoles, forbiddenRoles)
  }

  /** The first user is kept or dropped on its own account, and the rest are
      filtered as if it were not there. */
  lemma FilterUsersFirst(u: User, users: seq<User>, requiredRoles: seq<string>, forbiddenRoles: seq<string>)
    ensures FilterUsers([u] + users, requiredRoles, forbiddenRoles) ==
            (if Kept(u, requiredRoles, forbiddenRoles) then [u] else []) + FilterUsers(users, requiredRoles, forbiddenRoles)
  {
    assert ([u] + users)[1..] == users;
    var screen := (v: User) => !HoldsAnyOf(v, forbiddenRoles);
    var screened := Filter(users, screen);
    if screen(u) {
      assert Filter([u] + users, screen) == [u] + screened;
      assert ([u] + screened)[1..] == screened;
    } else {
      assert Filter([u] + users, screen) == screened;
    }
  }

  /** The two passes filter exactly as the one-pass reference does. */
  lemma {:induction false} FilterUsersIsOnePass(users: seq<User>, requiredRoles: seq<string>, forbiddenRoles: seq<string>)
    ensures FilterUsers(users, requiredRoles, forbiddenRoles) == KeptUsers(users, requiredRoles, forbiddenRoles)
  {
    if users != [] {
      FilterUsersIsOnePass(users[1..], requiredRoles, forbiddenRoles);
      FilterUsersFirst(users[0], users[1..], requiredRoles, forbiddenRoles);
      assert [users[0]] + users[1..] == users;
    }
  }

  /** A subsequence as long as its source is the source itself. */
  lemma {:induction false} FullSubsequence<T>(xs: seq<T>, ys: seq<T>)
    requires IsSubsequence(xs, ys) && |xs| == |ys|
    ensures xs == ys
    decreases |ys|
  {
    if xs != [] {
      if xs[0] == ys[0] && IsSubsequence(xs[1..], ys[1..]) {
        FullSubsequence(xs[1..], ys[1..]);
        assert xs == [xs[0]] + xs[1..] && ys == [ys[0]] + ys[1..];
      } else {
        SubsequenceNoLonger(xs, ys[1..]);
      }
    }
  }

  /** A subsequence is never longer than its source. */
  lemma {:induction false} SubsequenceNoLonger<T>(xs: seq<T>, ys: seq<T>)
    requires IsSubsequence(xs, ys)
    ensures |xs| <= |ys|
    decreases |ys|
  {
    if xs != [] {
      if xs[0] == ys[0] && IsSubsequence(xs[1..], ys[1..]) {
        SubsequenceNoLonger(xs[1..], ys[1..]);
      } else {
        SubsequenceNoLonger(xs, ys[1..]);
      }
    }
  }

  /** With nothing required and nothing forbidden, every user is kept. */
  lemma NoFilteringKeepsAll(users: seq<User>)
    ensures FilterUsers(users, [], []) == users
  {
    var r := FilterUsers(users, [], []);
    FilterUsersMeaning(users, [], []);
    assert forall u :: !HoldsAnyOf(u, []);
    assert multiset(r) == multiset(users);
    assert |r| == |multiset(r)| == |multiset(users)| == |users|;
    FullSubsequence(r, users);
  }

  /** No user holding a forbidden role is returned, whatever else it holds:
      removal takes precedence over a required role. */
  lemma ForbiddenNeverKept(users: seq<User>, requiredRoles: seq<string>, forbiddenRoles: seq<string>, u: User)
    requires HoldsAnyOf(u, forbiddenRoles)
    ensures u !in FilterUsers(users, requiredRoles, forbiddenRoles)
  {
    FilterUsersMeaning(users, requiredRoles, forbiddenRoles);
  }

  /** When some role is required, every returned user holds one. */
  lemma RequiredAlwaysHeld(users: seq<User>, requiredRoles: seq<string>, forbiddenRoles: seq<string>, u: User)
    requires |requiredRoles| > 0 && u in FilterUsers(users, requiredRoles, forbiddenRoles)
    ensures HoldsAnyOf(u, requiredRoles)
  {
    FilterUsersMeaning(users, requiredRoles, forbiddenRoles);
  }

  /** Only role names matter: two users whose roles carry the same names,
      under whatever IDs, are both kept or both dropped. */
  lemma RoleIdsIgnored(u: User, v: User, requiredRoles: seq<string>, forbiddenRoles: seq<string>)
    requires u.roles.Values == v.roles.Values
    ensures Kept(u, requiredRoles, forbiddenRoles) == Kept(v, requiredRoles, forbiddenRoles)
  {
  }
}
