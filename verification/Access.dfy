/**
  Access decisions over policy assignments. An absent condition and an empty one are both None;
  a date that does not parse compares false with every time.
*/
module Access {
  import opened Wrappers

  datatype Effect = Allow | Deny

  datatype Time = NotATime | At(milliseconds: int)

  datatype Conditions = Conditions(
    validFrom: Option<Time>, validUntil: Option<Time>, requiresMfa: bool,
    ownerUserId: Option<string>, requiredModule: Option<string>)

  datatype Scope = Scope(scopeType: string, id: string)

  datatype Assignment = Assignment(effect: Effect, permission: string, scope: Scope, conditions: Option<Conditions>)

  datatype Resource = Resource(scope: Scope, ancestors: seq<Scope>, ownerUserId: Option<string>)

  datatype Context = Context(now: Time, authenticationMethods: seq<string>, enabledModules: seq<string>)

  datatype Reason = ExplicitDeny | MissingPermission | ScopeMismatch | ConditionFailed | Allowed

  datatype Decision = Decision(allowed: bool, reason: Reason)

  predicate Before(a: Time, b: Time) {
    a.At? && b.At? && a.milliseconds < b.milliseconds
  }

  predicate NotBefore(a: Time, b: Time) {
    a.At? && b.At? && a.milliseconds >= b.milliseconds
  }

  predicate ScopeContains(assignment: Assignment, resource: Resource) {
    assignment.scope == resource.scope || assignment.scope in resource.ancestors
  }

  predicate ConditionsPass(conditions: Option<Conditions>, resource: Resource, context: Context) {
    if conditions.None? then true
    else
      var c := conditions.value;
      if c.validFrom.Some? && Before(context.now, c.validFrom.value) then false
      else if c.validUntil.Some? && NotBefore(context.now, c.validUntil.value) then false
      else if c.requiresMfa && "mfa" !in context.authenticationMethods then false
      else if c.ownerUserId.Some? && c.ownerUserId != resource.ownerUserId then false
      else if c.requiredModule.Some? && c.requiredModule.value !in context.enabledModules then false
      else true
  }

  function Filter(assignments: seq<Assignment>, keep: Assignment -> bool): seq<Assignment> {
    if assignments == [] then []
    else (if keep(assignments[0]) then [assignments[0]] else []) + Filter(assignments[1..], keep)
  }

  predicate SomeOf(assignments: seq<Assignment>, effect: Effect) {
    exists i :: 0 <= i < |assignments| && assignments[i].effect == effect
  }

  function EvaluateAccess(assignments: seq<Assignment>, permission: string, resource: Resource,
                          context: Context): Decision {
    var permissionMatches := Filter(assignments, (a: Assignment) => a.permission == permission);
    if permissionMatches == [] then Decision(false, MissingPermission)
    else
      var scopeMatches := Filter(permissionMatches, (a: Assignment) => ScopeContains(a, resource));
      if scopeMatches == [] then Decision(false, ScopeMismatch)
      else
        var applicable := Filter(scopeMatches, (a: Assignment) => ConditionsPass(a.conditions, resource, context));
        if applicable == [] then Decision(false, ConditionFailed)
        else if SomeOf(applicable, Deny) then Decision(false, ExplicitDeny)
        else Decision(SomeOf(applicable, Allow), Reason.Allowed)
  }

  // ------------------------------------------------------------------ validity windows

  function Window(c: Conditions, from: int, until: int): Option<Conditions> {
    Some(c.(validFrom := Some(At(from)), validUntil := Some(At(until))))
  }

  /** Windows that meet leave no gap and never overlap: the first ends exactly where the second
      begins. */
  lemma AdjacentWindowsPartitionTime(c: Conditions, from: int, middle: int, until: int, resource: Resource,
                                     context: Context)
    requires from <= middle <= until && context.now.At?
    ensures var first := ConditionsPass(Window(c, from, middle), resource, context);
            var second := ConditionsPass(Window(c, middle, until), resource, context);
            !(first && second) && (ConditionsPass(Window(c, from, until), resource, context) <==> first || second)
  {
  }

  // ------------------------------------------------------------------ what decides

  // The assignment speaks about this permission on this resource now.
  predicate Applies(a: Assignment, permission: string, resource: Resource, context: Context) {
    a.permission == permission && ScopeContains(a, resource) && ConditionsPass(a.conditions, resource, context)
  }

  // Some assignment with this effect applies.
  predicate AppliesTo(assignments: seq<Assignment>, effect: Effect, permission: string, resource: Resource,
                      context: Context) {
    exists a :: a in assignments && a.effect == effect && Applies(a, permission, resource, context)
  }

  lemma {:induction false} FilterKeeps(assignments: seq<Assignment>, keep: Assignment -> bool, a: Assignment)
    ensures a in Filter(assignments, keep) <==> a in assignments && keep(a)
  {
    if assignments != [] {
      FilterKeeps(assignments[1..], keep, a);
      assert a in assignments <==> a == assignments[0] || a in assignments[1..];
    }
  }

  lemma FilterIsEmpty(assignments: seq<Assignment>, keep: Assignment -> bool)
    ensures Filter(assignments, keep) == [] <==> forall a :: a in assignments ==> !keep(a)
  {
    forall a
      ensures a in Filter(assignments, keep) <==> a in assignments && keep(a)
    {
      FilterKeeps(assignments, keep, a);
    }
    if Filter(assignments, keep) != [] {
      assert Filter(assignments, keep)[0] in Filter(assignments, keep);
    }
  }

  // The three filters in a row keep what applies.
  lemma ApplicableOnes(assignments: seq<Assignment>, permission: string, resource: Resource, context: Context)
    returns (applicable: seq<Assignment>)
    ensures forall a :: a in applicable <==> a in assignments && Applies(a, permission, resource, context)
    ensures EvaluateAccess(assignments, permission, resource, context).reason in {ExplicitDeny, Reason.Allowed} <==>
            applicable != []
    ensures applicable != [] ==>
            EvaluateAccess(assignments, permission, resource, context) ==
            if SomeOf(applicable, Deny) then Decision(false, ExplicitDeny) else Decision(SomeOf(applicable, Allow),
                Reason.Allowed)
  {
    var first := Filter(assignments, (a: Assignment) => a.permission == permission);
    var second := Filter(first, (a: Assignment) => ScopeContains(a, resource));
    applicable := Filter(second, (a: Assignment) => ConditionsPass(a.conditions, resource, context));
    forall a
      ensures a in applicable <==> a in assignments && Applies(a, permission, resource, context)
    {
      FilterKeeps(assignments, (a: Assignment) => a.permission == permission, a);
      FilterKeeps(first, (a: Assignment) => ScopeContains(a, resource), a);
      FilterKeeps(second, (a: Assignment) => ConditionsPass(a.conditions, resource, context), a);
    }
  }

  lemma SomeMember(assignments: seq<Assignment>, effect: Effect)
    ensures SomeOf(assignments, effect) <==> exists a :: a in assignments && a.effect == effect
  {
    if a :| a in assignments && a.effect == effect {
      var i :| 0 <= i < |assignments| && assignments[i] == a;
    }
  }

  /** Deny overrides: access is granted exactly when an allow applies and no deny does, and
      exactly then the reason is "allowed". */
  lemma DenyOverrides(assignments: seq<Assignment>, permission: string, resource: Resource, context: Context)
    ensures var decision := EvaluateAccess(assignments, permission, resource, context);
            && (decision.allowed <==> decision.reason == Reason.Allowed)
            && (decision.allowed <==>
                AppliesTo(assignments, Allow, permission, resource, context) &&
                    !AppliesTo(assignments, Deny, permission, resource, context))
            && (decision.reason == ExplicitDeny <==> AppliesTo(assignments, Deny, permission, resource, context))
  {
    var applicable := ApplicableOnes(assignments, permission, resource, context);
    SomeMember(applicable, Allow);
    SomeMember(applicable, Deny);
    if applicable != [] {
      assert applicable[0] in applicable && (applicable[0].effect == Allow || applicable[0].effect == Deny);
    }
  }

  /** The three refusals other than a deny: no assignment has the permission, none of those
      reaches the resource, or none of those has its conditions met. */
  lemma RefusalsAreExact(assignments: seq<Assignment>, permission: string, resource: Resource, context: Context)
    ensures var reason := EvaluateAccess(assignments, permission, resource, context).reason;
            var permitted := exists a :: a in assignments && a.permission == permission;
            var reached := exists a :: a in assignments && a.permission == permission && ScopeContains(a, resource);
            var applied := exists a :: a in assignments && Applies(a, permission, resource, context);
            && (reason == MissingPermission <==> !permitted)
            && (reason == ScopeMismatch <==> permitted && !reached)
            && (reason == ConditionFailed <==> reached && !applied)
  {
    var hasPermission := (a: Assignment) => a.permission == permission;
    var reaches := (a: Assignment) => ScopeContains(a, resource);
    var passes := (a: Assignment) => ConditionsPass(a.conditions, resource, context);
    var first := Filter(assignments, hasPermission);
    var second := Filter(first, reaches);
    FilterIsEmpty(assignments, hasPermission);
    FilterIsEmpty(first, reaches);
    FilterIsEmpty(second, passes);
    forall a
      ensures a in first <==> a in assignments && a.permission == permission
      ensures a in second <==> a in first && ScopeContains(a, resource)
    {
      FilterKeeps(assignments, hasPermission, a);
      FilterKeeps(first, reaches, a);
    }
  }

  /** Neither the order of the assignments nor repeating one matters. */
  lemma OrderDoesNotMatter(a: seq<Assignment>, b: seq<Assignment>, permission: string, resource: Resource,
                           context: Context)
    requires forall x :: x in a <==> x in b
    ensures EvaluateAccess(a, permission, resource, context) == EvaluateAccess(b, permission, resource, context)
  {
    hide EvaluateAccess, ScopeContains, ConditionsPass;
    RefusalsAreExact(a, permission, resource, context);
    RefusalsAreExact(b, permission, resource, context);
    DenyOverrides(a, permission, resource, context);
    DenyOverrides(b, permission, resource, context);
  }

  // The assignments with one more at a position.
  function With(assignments: seq<Assignment>, k: nat, extra: Assignment): seq<Assignment>
    requires k <= |assignments|
  {
    assignments[..k] + [extra] + assignments[k..]
  }

  lemma WithHas(assignments: seq<Assignment>, k: nat, extra: Assignment, a: Assignment)
    requires k <= |assignments|
    ensures a in With(assignments, k, extra) <==> a == extra || a in assignments
  {
    assert assignments == assignments[..k] + assignments[k..];
  }

  /** One more deny never grants, and refuses outright when it applies; one more allow never
      revokes, and grants when it applies and no deny does. */
  lemma OneMore(assignments: seq<Assignment>, k: nat, extra: Assignment, permission: string, resource: Resource,
                context: Context)
    requires k <= |assignments|
    ensures var before := EvaluateAccess(assignments, permission, resource, context).allowed;
            var now := EvaluateAccess(With(assignments, k, extra), permission, resource, context).allowed;
            var applies := Applies(extra, permission, resource, context);
            && (extra.effect == Deny ==> (now <==> before && !applies))
            && (extra.effect == Allow ==>
                (now <==> before || (applies && !AppliesTo(assignments, Deny, permission, resource, context))))
  {
    hide EvaluateAccess, ScopeContains, ConditionsPass, With;
    DenyOverrides(assignments, permission, resource, context);
    DenyOverrides(With(assignments, k, extra), permission, resource, context);
    forall a {
      WithHas(assignments, k, extra, a);
    }
    assert extra in With(assignments, k, extra);
  }

  // ------------------------------------------------------------------ in the terms of a single assignment

  // The assignment is for the resource itself or for something it lies in.
  predicate Covers(a: Assignment, resource: Resource) {
    || (a.scope.scopeType == resource.scope.scopeType && a.scope.id == resource.scope.id)
    || exists i :: 0 <= i < |resource.ancestors| && resource.ancestors[i].scopeType == a.scope.scopeType &&
                   resource.ancestors[i].id == a.scope.id
  }

  // Both dates are readable and the first is the later one.
  predicate After(a: Time, b: Time) {
    a.At? && b.At? && b.milliseconds < a.milliseconds
  }

  // None of the five conditions speaks against it; `validUntil` itself is already too late.
  predicate Met(c: Conditions, resource: Resource, context: Context) {
    && (c.validFrom.Some? ==> !After(c.validFrom.value, context.now))
    && (c.validUntil.Some? && c.validUntil.value.At? && context.now.At? ==> After(c.validUntil.value, context.now))
    && (c.requiresMfa ==> exists i :: 0 <= i < |context.authenticationMethods| &&
                                      context.authenticationMethods[i] == "mfa")
    && (c.ownerUserId.Some? ==> resource.ownerUserId.Some? && resource.ownerUserId.value == c.ownerUserId.value)
    && (c.requiredModule.Some? ==> exists i :: 0 <= i < |context.enabledModules| &&
                                               context.enabledModules[i] == c.requiredModule.value)
  }

  predicate Speaks(a: Assignment, permission: string, resource: Resource, context: Context) {
    && a.permission == permission && Covers(a, resource)
    && (a.conditions.Some? ==> Met(a.conditions.value, resource, context))
  }

  /** Access is granted exactly when some allow for the permission covers the resource with all its
      conditions met, and no such deny does. */
  lemma GrantedExactlyWhen(assignments: seq<Assignment>, permission: string, resource: Resource, context: Context)
    ensures EvaluateAccess(assignments, permission, resource, context).allowed <==>
            && (exists i :: 0 <= i < |assignments| && assignments[i].effect == Allow &&
                            Speaks(assignments[i], permission, resource, context))
            && (forall i :: 0 <= i < |assignments| && assignments[i].effect == Deny ==>
                            !Speaks(assignments[i], permission, resource, context))
  {
    DenyOverrides(assignments, permission, resource, context);
    hide EvaluateAccess, Applies, Speaks;
    forall i | 0 <= i < |assignments|
      ensures assignments[i] in assignments
      ensures Applies(assignments[i], permission, resource, context) <==>
              Speaks(assignments[i], permission, resource, context)
    {
      SpeaksExactlyWhenApplies(assignments[i], permission, resource, context);
    }
  }

  lemma SpeaksExactlyWhenApplies(a: Assignment, permission: string, resource: Resource, context: Context)
    ensures Applies(a, permission, resource, context) <==> Speaks(a, permission, resource, context)
  {
    assert forall i :: 0 <= i < |resource.ancestors| ==> resource.ancestors[i] in resource.ancestors;
  }

  // The same context with one more way of authentication.
  function Authenticated(context: Context, how: string): Context {
    context.(authenticationMethods := context.authenticationMethods + [how])
  }

  /** More authentication can be a disadvantage: a second factor takes access away exactly when a
      deny that asks for one waits for it. */
  lemma SecondFactorRevokesExactlyWhen(assignments: seq<Assignment>, permission: string, resource: Resource,
                                       context: Context)
    requires EvaluateAccess(assignments, permission, resource, context).allowed
    ensures var now := Authenticated(context, "mfa");
            !EvaluateAccess(assignments, permission, resource, now).allowed <==>
            exists i :: 0 <= i < |assignments| && assignments[i].effect == Deny &&
                        assignments[i].conditions.Some? && assignments[i].conditions.value.requiresMfa &&
                        Speaks(assignments[i], permission, resource, now)
  {
    var now := Authenticated(context, "mfa");
    GrantedExactlyWhen(assignments, permission, resource, context);
    GrantedExactlyWhen(assignments, permission, resource, now);
    hide EvaluateAccess, Speaks;
    forall i | 0 <= i < |assignments| {
      MoreIsMet(assignments[i], permission, resource, context, "mfa");
    }
  }

  // An assignment that speaks goes on speaking, and a new one asked for a second factor.
  lemma MoreIsMet(a: Assignment, permission: string, resource: Resource, context: Context, how: string)
    ensures Speaks(a, permission, resource, context) ==> Speaks(a, permission, resource, Authenticated(context, how))
    ensures Speaks(a, permission, resource, Authenticated(context, how)) && !Speaks(a, permission, resource, context)
            ==> a.conditions.Some? && a.conditions.value.requiresMfa
  {
    var old_, new_ := context.authenticationMethods, Authenticated(context, how).authenticationMethods;
    assert forall i :: 0 <= i < |old_| ==> new_[i] == old_[i];
  }
}
