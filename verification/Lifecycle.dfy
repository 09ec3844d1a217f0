/** Deprecation and replacement of registry targets, and the graph the replacements form. */
module Lifecycle {
  import opened Common
  import opened Registry

  /** An object, or one feature of a view. */
  datatype Target = Target(key: Key, feature: Option<string>)

  datatype Activity = Active | Deprecated

  datatype Life = Life(status: Activity, replacement: Option<Target>, metadata: string)

  type Lives = map<Target, Life>

  datatype State = State(store: Store, lives: Lives)

  datatype Refusal =
    | UnknownTarget | ReplacesItself | KindMismatch | ReplacementDeprecated | ParentDeprecated | Cycle | IsReplacement

  /** `_record_for_target` finds it. */
  predicate Exists(store: Store, t: Target) {
    t.key in store && (t.feature.Some? ==> store[t.key].ViewSpec? && t.feature.value in store[t.key].features)
  }

  predicate DirectlyDeprecated(lives: Lives, t: Target) {
    t in lives && lives[t].status == Deprecated
  }

  function ReplacementOf(lives: Lives, t: Target): Option<Target> {
    if t in lives then lives[t].replacement else None
  }

  /** Same kind and same granularity. */
  predicate SameShape(a: Target, b: Target) {
    a.key.kind == b.key.kind && (a.feature.Some? <==> b.feature.Some?)
  }

  predicate ParentDeprecatedOf(lives: Lives, t: Target) {
    t.feature.Some? && DirectlyDeprecated(lives, Target(t.key, None))
  }

  // ---- what every lifecycle operation keeps --------------------------------------------------------

  /** A replacement is only set on a deprecated target; it exists, has the same shape and is itself directly active. */
  ghost predicate ReplacementOk(s: State, t: Target)
    requires t in s.lives
  {
    var life := s.lives[t];
    life.replacement.Some? ==>
      var r := life.replacement.value;
      && life.status == Deprecated && r != t && SameShape(t, r)
      && Exists(s.store, r) && !DirectlyDeprecated(s.lives, r)
  }

  ghost predicate LifeInv(s: State) {
    forall t | t in s.lives :: Exists(s.store, t) && ReplacementOk(s, t)
  }

  /** What a new replacement must satisfy. */
  predicate MayReplace(s: State, t: Target, r: Target) {
    && r != t && SameShape(t, r) && Exists(s.store, r)
    && !DirectlyDeprecated(s.lives, r) && !ParentDeprecatedOf(s.lives, r)
  }

  ghost predicate Depended(lives: Lives, t: Target) {
    exists d :: d in lives && lives[d].status == Deprecated && lives[d].replacement == Some(t)
  }

  function LifeOf(lives: Lives, t: Target): Life {
    if t in lives then lives[t] else Life(Active, None, "")
  }

  datatype Op =
    | Patch(target: Target, metadata: string)
    | Deprecate(target: Target, replacement: Option<Target>)
    | Reactivate(target: Target)
    | ApplyManifest(objects: seq<Object>)

  ghost predicate MayDeprecate(s: State, t: Target, replacement: Option<Target>) {
    Exists(s.store, t) && (replacement.Some? ==> MayReplace(s, t, replacement.value)) && !Depended(s.lives, t)
  }

  /** One operation on the registry; a refused one changes nothing. */
  ghost function Step(s: State, op: Op): State {
    match op
    case Patch(t, metadata) =>
      if Exists(s.store, t) then s.(lives := s.lives[t := LifeOf(s.lives, t).(metadata := metadata)]) else s
    case Deprecate(t, replacement) =>
      if MayDeprecate(s, t, replacement)
      then s.(lives := s.lives[t := LifeOf(s.lives, t).(status := Deprecated, replacement := replacement)]) else s
    case Reactivate(t) =>
      if Exists(s.store, t) && t in s.lives
      then s.(lives := s.lives[t := s.lives[t].(status := Active, replacement := None)]) else s
    case ApplyManifest(objects) => s.(store := Applied(s.store, objects))
  }

  ghost function Run(ops: seq<Op>): State {
    if ops == [] then State(map[], map[]) else Step(Run(ops[..|ops| - 1]), ops[|ops| - 1])
  }

  lemma StepKeepsLife(s: State, op: Op)
    requires LifeInv(s)
    ensures LifeInv(Step(s, op))
  {
    var next := Step(s, op);
    if op.ApplyManifest? { ApplyOnlyAdds(s.store, op.objects); }
    forall t | t in next.lives ensures Exists(next.store, t) && ReplacementOk(next, t) {
      if t in s.lives { assert Exists(s.store, t) && ReplacementOk(s, t); }
    }
  }

  lemma {:induction false} RunKeepsLife(ops: seq<Op>)
    ensures LifeInv(Run(ops))
  {
    if ops != [] {
      RunKeepsLife(ops[..|ops| - 1]);
      StepKeepsLife(Run(ops[..|ops| - 1]), ops[|ops| - 1]);
    }
  }

  /**
   * Deprecation, exactly: it goes through when the target exists, nobody deprecated names it as replacement, and the
   * replacement, if one is given, is another existing target of the same kind and granularity that is not deprecated,
   * nor, for a feature, is its view. The target is then deprecated with that replacement, and nothing else changes.
   */
  lemma DeprecatesExactly(s: State, t: Target, replacement: Option<Target>)
    ensures var next := Step(s, Deprecate(t, replacement));
            var known := && t.key in s.store
                         && (t.feature.Some? ==>
                               s.store[t.key].ViewSpec? && t.feature.value in s.store[t.key].features);
            var fits := replacement.Some? ==>
                          var r := replacement.value;
                          && r != t && r.key.kind == t.key.kind && (r.feature.None? <==> t.feature.None?)
                          && r.key in s.store
                          && (r.feature.Some? ==>
                                s.store[r.key].ViewSpec? && r.feature.value in s.store[r.key].features)
                          && (r in s.lives ==> s.lives[r].status == Active)
                          && (r.feature.Some? && Target(r.key, None) in s.lives ==>
                                s.lives[Target(r.key, None)].status == Active);
            var free := forall d | d in s.lives && s.lives[d].status == Deprecated :: s.lives[d].replacement != Some(t);
            && (MayDeprecate(s, t, replacement) <==> known && fits && free)
            && (!(known && fits && free) ==> next == s)
            && (known && fits && free ==>
                  next == State(s.store, s.lives[t := Life(Deprecated, replacement,
                                                          if t in s.lives then s.lives[t].metadata else "")]))
  {}

  /** Reactivation: an existing target is active afterwards and names no replacement; nothing else changes. */
  lemma ReactivatesExactly(s: State, t: Target)
    requires LifeInv(s)
    ensures var next := Step(s, Reactivate(t));
            && (t in next.lives ==> next.lives[t] == Life(Active, None, s.lives[t].metadata))
            && next.store == s.store && next.lives.Keys == s.lives.Keys
            && (forall other | other in s.lives && other != t :: next.lives[other] == s.lives[other])
  {
    if t in s.lives { assert Exists(s.store, t); }
  }

  // ---- the graph -------------------------------------------------------------------------------------

  /** A walk along replacements. */
  ghost predicate IsPath(lives: Lives, path: seq<Target>) {
    forall i | 0 <= i < |path| - 1 :: ReplacementOf(lives, path[i]) == Some(path[i + 1])
  }

  lemma StepOnPath(lives: Lives, path: seq<Target>, i: nat)
    requires IsPath(lives, path) && i + 1 < |path|
    ensures ReplacementOf(lives, path[i]) == Some(path[i + 1])
  {}

  lemma NoSecondStep(s: State, t: Target, r: Target)
    requires LifeInv(s) && ReplacementOf(s.lives, t) == Some(r)
    ensures ReplacementOf(s.lives, r).None?
  {
    assert ReplacementOk(s, t);
    if r in s.lives { assert ReplacementOk(s, r); }
  }

  /**
   * In every state reached by patching, deprecating, reactivating and applying: the replacement of a target
   * exists, has its kind and granularity and is directly active; no walk along replacements takes more than
   * one step, so in particular none returns to where it began.
   */
  lemma ReplacementGraph(ops: seq<Op>, path: seq<Target>)
    requires IsPath(Run(ops).lives, path)
    ensures |path| <= 2
    ensures |path| == 2 ==>
              var s := Run(ops);
              && DirectlyDeprecated(s.lives, path[0]) && !DirectlyDeprecated(s.lives, path[1]) && path[0] != path[1]
              && Exists(s.store, path[1]) && SameShape(path[0], path[1])
  {
    RunKeepsLife(ops);
    var s := Run(ops);
    if |path| >= 2 {
      assert ReplacementOf(s.lives, path[0]) == Some(path[1]);
      assert ReplacementOk(s, path[0]);
      if |path| > 2 { StepOnPath(s.lives, path, 1); }
      NoSecondStep(s, path[0], path[1]);
    }
  }

  /**
   * A target that someone depends on cannot be deprecated, so a replacement is never pulled from under its
   * dependents.
   */
  lemma DependentsStay(ops: seq<Op>, op: Op, d: Target)
    requires d in Run(ops).lives && Run(ops).lives[d].replacement.Some?
    requires !(op.Deprecate? && op.target == d) && !(op.Reactivate? && op.target == d)
    ensures var r := Run(ops).lives[d].replacement.value;
            var next := Step(Run(ops), op);
            d in next.lives && next.lives[d].replacement == Some(r) && !DirectlyDeprecated(next.lives, r)
            && Exists(next.store, r)
  {
    RunKeepsLife(ops);
    StepKeepsLife(Run(ops), op);
    assert ReplacementOk(Run(ops), d);
    assert ReplacementOk(Step(Run(ops), op), d);
  }

  // ---- the operations ----------------------------------------------------------------------------------

  class Session {
    var state: State

    constructor ()
      ensures state == Run([])
    {
      state := State(map[], map[]);
    }

    /** `patch_metadata`: the target's metadata changes, and nothing of the replacement graph does. */
    method PatchMetadata(t: Target, metadata: string) returns (refusal: Option<Refusal>)
      requires LifeInv(state)
      modifies this
      ensures LifeInv(state) && state == Step(old(state), Patch(t, metadata)) && state.store == old(state).store
      ensures forall other :: ReplacementOf(state.lives, other) == ReplacementOf(old(state).lives, other)
      ensures forall other :: DirectlyDeprecated(state.lives, other) <==> DirectlyDeprecated(old(state).lives, other)
      ensures forall other | other != t :: LifeOf(state.lives, other) == LifeOf(old(state).lives, other)
      ensures refusal.None? ==> LifeOf(state.lives, t).metadata == metadata
      ensures refusal == if Exists(old(state).store, t) then None else Some(UnknownTarget)
    {
      StepKeepsLife(state, Patch(t, metadata));
      if !Exists(state.store, t) {
        return Some(UnknownTarget);
      }
      assert t in state.lives ==> ReplacementOk(state, t);
      var life := LifeOf(state.lives, t);
      state := state.(lives := state.lives[t := life.(metadata := metadata)]);
      refusal := None;
    }

    /**
     * `_validate_replacement`, with the number of passes of its cycle walk. In every reachable state the walk
     * ends on its first pass, so it never finds the cycle it looks for.
     */
    method ValidateReplacement(t: Target, r: Target) returns (refusal: Option<Refusal>, passes: nat)
      ensures refusal.None? ==> MayReplace(state, t, r)
      ensures LifeInv(state) ==> (refusal.None? <==> MayReplace(state, t, r))
      ensures LifeInv(state) ==> passes <= 1 && refusal != Some(Cycle)
      ensures LifeInv(state) && MayReplace(state, t, r) ==> passes == 1
    {
      passes := 0;
      if r == t { return Some(ReplacesItself), passes; }
      if !SameShape(t, r) { return Some(KindMismatch), passes; }
      if !Exists(state.store, r) { return Some(UnknownTarget), passes; }
      if DirectlyDeprecated(state.lives, r) { return Some(ReplacementDeprecated), passes; }
      if ParentDeprecatedOf(state.lives, r) { return Some(ParentDeprecated), passes; }
      var current := r;
      var visited: set<Target> := {};
      while current !in visited
        invariant LifeInv(state) ==> passes == 0 && current == r && visited == {}
        decreases state.lives.Keys - visited
      {
        if current == t { return Some(Cycle), passes; }
        passes := passes + 1;
        if !Exists(state.store, current) { return Some(UnknownTarget), passes; }
        var next := ReplacementOf(state.lives, current);
        if next.None? { return None, passes; }
        assert LifeInv(state) ==> ReplacementOk(state, current);
        visited := visited + {current};
        current := next.value;
      }
      refusal := Some(Cycle);
    }

    method HasDependent(t: Target) returns (found: bool)
      ensures found <==> Depended(state.lives, t)
    {
      var rest := state.lives.Keys;
      while rest != {}
        invariant rest <= state.lives.Keys
        invariant forall d | d in state.lives && d !in rest ::
                    !(state.lives[d].status == Deprecated && state.lives[d].replacement == Some(t))
        decreases rest
      {
        var d :| d in rest;
        if state.lives[d].status == Deprecated && state.lives[d].replacement == Some(t) {
          return true;
        }
        rest := rest - {d};
      }
      found := false;
    }

    /**
     * `deprecate`: it goes through exactly when the target exists, the replacement may replace it and nobody
     * depends on it.
     */
    method DeprecateTarget(t: Target, replacement: Option<Target>) returns (refusal: Option<Refusal>)
      requires LifeInv(state)
      modifies this
      ensures LifeInv(state) && state == Step(old(state), Deprecate(t, replacement))
      ensures refusal.None? <==> MayDeprecate(old(state), t, replacement)
      ensures refusal != Some(Cycle)
    {
      StepKeepsLife(state, Deprecate(t, replacement));
      if !Exists(state.store, t) {
        return Some(UnknownTarget);
      }
      if replacement.Some? {
        var invalid, _ := ValidateReplacement(t, replacement.value);
        if invalid.Some? { return invalid; }
      }
      var depended := HasDependent(t);
      if depended {
        return Some(IsReplacement);
      }
      var life := LifeOf(state.lives, t);
      state := state.(lives := state.lives[t := life.(status := Deprecated, replacement := replacement)]);
      refusal := None;
    }

    method ReactivateTarget(t: Target) returns (refusal: Option<Refusal>)
      requires LifeInv(state)
      modifies this
      ensures LifeInv(state) && state == Step(old(state), Reactivate(t))
      ensures refusal == if Exists(old(state).store, t) then None else Some(UnknownTarget)
    {
      StepKeepsLife(state, Reactivate(t));
      if !Exists(state.store, t) {
        return Some(UnknownTarget);
      }
      if t in state.lives {
        state := state.(lives := state.lives[t := state.lives[t].(status := Active, replacement := None)]);
      }
      refusal := None;
    }
  }
}
