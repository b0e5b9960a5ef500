/** The four filterings the source's tests expect, over its six users. */
module UserFilterExamples {
  import opened UserFilter

  /** The six users of the tests, each with the role names it holds. */
  const Required := User("1", map["16" := "required role"])
  const Forbidden := User("2", map["21" := "forbidden role"])
  const Both := User("3", map["16" := "required role", "21" := "forbidden role"])
  const RequiredMixed := User("4", map["16" := "required role", "21" := "unrelated role"])
  const ForbiddenMixed := User("5", map["21" := "forbidden role", "31" := "unrelated role"])
  const Irrelevant := User("6", map["31" := "unrelated role"])
  const TestUsers := [Required, Forbidden, Both, RequiredMixed, ForbiddenMixed, Irrelevant]

  lemma OneRole(u: User, id: string, name: string)
    requires u.roles == map[id := name]
    ensures u.roles.Values == {name}
  {
    forall role | role in u.roles.Values ensures role == name {
      var k :| k in u.roles && u.roles[k] == role;
    }
    assert u.roles[id] == name;
  }

  lemma TwoRoles(u: User, id1: string, name1: string, id2: string, name2: string)
    requires id1 != id2 && u.roles == map[id1 := name1, id2 := name2]
    ensures u.roles.Values == {name1, name2}
  {
    forall role | role in u.roles.Values ensures role == name1 || role == name2 {
      var k :| k in u.roles && u.roles[k] == role;
    }
    assert u.roles[id1] == name1 && u.roles[id2] == name2;
  }

  /** Which of the six hold the required role and which the forbidden one. */
  lemma TestUserRoles()
    ensures HoldsAnyOf(Required, ["required role"]) && !HoldsAnyOf(Required, ["forbidden role"])
    ensures !HoldsAnyOf(Forbidden, ["required role"]) && HoldsAnyOf(Forbidden, ["forbidden role"])
    ensures HoldsAnyOf(Both, ["required role"]) && HoldsAnyOf(Both, ["forbidden role"])
    ensures HoldsAnyOf(RequiredMixed, ["required role"]) && !HoldsAnyOf(RequiredMixed, ["forbidden role"])
    ensures !HoldsAnyOf(ForbiddenMixed, ["required role"]) && HoldsAnyOf(ForbiddenMixed, ["forbidden role"])
    ensures !HoldsAnyOf(Irrelevant, ["required role"]) && !HoldsAnyOf(Irrelevant, ["forbidden role"])
  {
    OneRole(Required, "16", "required role");
    OneRole(Forbidden, "21", "forbidden role");
    TwoRoles(Both, "16", "required role", "21", "forbidden role");
    TwoRoles(RequiredMixed, "16", "required role", "21", "unrelated role");
    TwoRoles(ForbiddenMixed, "21", "forbidden role", "31", "unrelated role");
    OneRole(Irrelevant, "31", "unrelated role");
  }

  /** The first user is kept or dropped on its own account. */
  lemma KeptUsersFirst(u: User, users: seq<User>, requiredRoles: seq<string>, forbiddenRoles: seq<string>)
    ensures Kept(u, requiredRoles, forbiddenRoles) ==>
            KeptUsers([u] + users, requiredRoles, forbiddenRoles) == [u] + KeptUsers(users, requiredRoles, forbiddenRoles)
    ensures !Kept(u, requiredRoles, forbiddenRoles) ==>
            KeptUsers([u] + users, requiredRoles, forbiddenRoles) == KeptUsers(users, requiredRoles, forbiddenRoles)
  {
    assert ([u] + users)[1..] == users;
  }

  /** The filter treats the two halves of a list separately. */
  lemma {:induction false} KeptUsersAppend(xs: seq<User>, ys: seq<User>, requiredRoles: seq<string>, forbiddenRoles: seq<string>)
    ensures KeptUsers(xs + ys, requiredRoles, forbiddenRoles) ==
            KeptUsers(xs, requiredRoles, forbiddenRoles) + KeptUsers(ys, requiredRoles, forbiddenRoles)
  {
    if xs == [] {
      assert xs + ys == ys;
    } else {
      KeptUsersAppend(xs[1..], ys, requiredRoles, forbiddenRoles);
      assert (xs + ys)[1..] == xs[1..] + ys;
    }
  }

  /** Three users of whom the first and the last are kept. */
  lemma KeepFirstAndLast(a: User, b: User, c: User, r: seq<string>, q: seq<string>)
    requires Kept(a, r, q) && !Kept(b, r, q) && Kept(c, r, q)
    ensures KeptUsers([a, b, c], r, q) == [a, c]
  {
    KeptUsersFirst(c, [], r, q);
    assert [c] + [] == [c];
    KeptUsersFirst(b, [c], r, q);
    assert [b] + [c] == [b, c];
    KeptUsersFirst(a, [b, c], r, q);
    assert [a] + [b, c] == [a, b, c];
  }

  /** Three users of whom only the first is kept. */
  lemma KeepFirstOnly(a: User, b: User, c: User, r: seq<string>, q: seq<string>)
    requires Kept(a, r, q) && !Kept(b, r, q) && !Kept(c, r, q)
    ensures KeptUsers([a, b, c], r, q) == [a]
  {
    KeptUsersFirst(c, [], r, q);
    assert [c] + [] == [c];
    KeptUsersFirst(b, [c], r, q);
    assert [b] + [c] == [b, c];
    KeptUsersFirst(a, [b, c], r, q);
    assert [a] + [b, c] == [a, b, c];
  }

  /** A list filtered as two halves. */
  lemma FilterInHalves(users: seq<User>, firstHalf: seq<User>, secondHalf: seq<User>, r: seq<string>, q: seq<string>)
    requires users == firstHalf + secondHalf
    ensures FilterUsers(users, r, q) == KeptUsers(firstHalf, r, q) + KeptUsers(secondHalf, r, q)
  {
    FilterUsersIsOnePass(users, r, q);
    KeptUsersAppend(firstHalf, secondHalf, r, q);
  }

  // Keeping everything when not filtering is UserFilter.NoFilteringKeepsAll.

  lemma KeepRequiredCriteria()
    ensures FilterUsers(TestUsers, ["required role"], []) == [Required, Both, RequiredMixed]
  {
    TestUserRoles();
    FilterInHalves(TestUsers, [Required, Forbidden, Both], [RequiredMixed, ForbiddenMixed, Irrelevant], ["required role"], []);
    KeepFirstAndLast(Required, Forbidden, Both, ["required role"], []);
    KeepFirstOnly(RequiredMixed, ForbiddenMixed, Irrelevant, ["required role"], []);
  }

  lemma ScreenOutForbiddenRoles()
    ensures FilterUsers(TestUsers, [], ["forbidden role"]) == [Required, RequiredMixed, Irrelevant]
  {
    TestUserRoles();
    FilterInHalves(TestUsers, [Required, Forbidden, Both], [RequiredMixed, ForbiddenMixed, Irrelevant], [], ["forbidden role"]);
    KeepFirstOnly(Required, Forbidden, Both, [], ["forbidden role"]);
    KeepFirstAndLast(RequiredMixed, ForbiddenMixed, Irrelevant, [], ["forbidden role"]);
  }

  lemma KeepRequiredWhileRemovingForbidden()
    ensures FilterUsers(TestUsers, ["required role"], ["forbidden role"]) == [Required, RequiredMixed]
  {
    TestUserRoles();
    FilterInHalves(TestUsers, [Required, Forbidden, Both], [RequiredMixed, ForbiddenMixed, Irrelevant],
                   ["required role"], ["forbidden role"]);
    KeepFirstOnly(Required, Forbidden, Both, ["required role"], ["forbidden role"]);
    KeepFirstOnly(RequiredMixed, ForbiddenMixed, Irrelevant, ["required role"], ["forbidden role"]);
  }
}
