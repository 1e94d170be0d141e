/**
 Stripe resource mappings: one row per resource with three independently versioned groups of
 fields. A write advances exactly one group, is computed from a row read earlier, and is
 conditioned on that group's revision and hash alone.
 */
module ResourceMappings {
  import opened Types

  type Hash = string

  datatype Dimension = Immutable | Presentation | Lifecycle

  datatype Version = Version(revision: int, hash: Hash)

  /** `display` is the name and description, kept here for discounts; `provider` stands for the
      provider object ids, which are written once. */
  datatype Mapping = Mapping(
    isDiscount: bool, immutable: Version, presentation: Option<Version>, lifecycle: Option<Version>,
    display: Option<string>, status: Option<string>, provider: string)

  function VersionOf(m: Mapping, d: Dimension): Option<Version> {
    match d
    case Immutable => Some(m.immutable)
    case Presentation => m.presentation
    case Lifecycle => m.lifecycle
  }

  function RevisionOf(m: Mapping, d: Dimension): int {
    if VersionOf(m, d).Some? then VersionOf(m, d).value.revision else 0
  }

  predicate Advances(existing: Mapping, proposed: Mapping, d: Dimension) {
    VersionOf(proposed, d).Some? && RevisionOf(proposed, d) > RevisionOf(existing, d)
  }

  /** The one group in which the proposed row is ahead of the existing one, if it has all fields that
      group writes. */
  function AdvancedDimension(existing: Mapping, proposed: Mapping): Option<Dimension> {
    var i, p, l := Advances(existing, proposed, Immutable), Advances(existing, proposed, Presentation),
                   Advances(existing, proposed, Lifecycle);
    if i && !p && !l then Some(Immutable)
    else if p && !i && !l then if proposed.isDiscount && proposed.display.None? then None else Some(Presentation)
    else if l && !i && !p then if proposed.status.None? then None else Some(Lifecycle)
    else None
  }

  /** A conditional write: the values of one group, and the version of it that was read. */
  datatype Write =
    | Create(row: Mapping)
    | Advance(dimension: Dimension, expected: Option<Version>, proposed: Mapping)

  /** The write computed from an earlier read; None where the source refuses. */
  function WriteOf(read: Option<Mapping>, proposed: Mapping): Option<Write> {
    if read.None? then Some(Create(proposed))
    else if AdvancedDimension(read.value, proposed).None? then None
    else
      var d := AdvancedDimension(read.value, proposed).value;
      Some(Advance(d, VersionOf(read.value, d), proposed))
  }

  predicate Allowed(current: Option<Mapping>, w: Write) {
    match w
    case Create(_) => current.None?
    case Advance(d, expected, _) => current.Some? && VersionOf(current.value, d) == expected
  }

  /** Advancing the immutable group writes only its revision: its content hash stays. */
  function Written(current: Option<Mapping>, w: Write): Mapping
    requires Allowed(current, w)
  {
    match w
    case Create(row) => row
    case Advance(d, _, proposed) =>
      match d
      case Immutable => current.value.(immutable := Version(proposed.immutable.revision, current.value.immutable.hash))
      case Presentation =>
        current.value.(presentation := proposed.presentation,
                       display := if proposed.isDiscount then proposed.display else current.value.display)
      case Lifecycle => current.value.(lifecycle := proposed.lifecycle, status := proposed.status)
  }

  function Apply(current: Option<Mapping>, w: Write): Option<Mapping> {
    if Allowed(current, w) then Some(Written(current, w)) else current
  }

  function RunWrites(current: Option<Mapping>, ws: seq<Write>): Option<Mapping>
    decreases |ws|
  {
    if ws == [] then current else RunWrites(Apply(current, ws[0]), ws[1..])
  }

  // ---------------------------------------------------------------- one group at a time

  /** The fields of one group. */
  datatype Group = Group(version: Option<Version>, field: Option<string>)

  function GroupOf(m: Mapping, d: Dimension): Group {
    match d
    case Immutable => Group(Some(m.immutable), None)
    case Presentation => Group(m.presentation, m.display)
    case Lifecycle => Group(m.lifecycle, m.status)
  }

  /** A write that a store would compute: from some read row, proposing to advance its group. */
  ghost predicate Computed(w: Write) {
    w.Advance? ==> exists read: Mapping :: WriteOf(Some(read), w.proposed) == Some(w)
  }

  /** Two advances of different groups commute, whatever rows they were computed from: neither changes
      whether the other is allowed, and together they have one effect in both orders. */
  lemma DifferentGroupsCommute(current: Mapping, v: Write, w: Write)
    requires v.Advance? && w.Advance? && v.dimension != w.dimension
    ensures Allowed(Apply(Some(current), v), w) <==> Allowed(Some(current), w)
    ensures Apply(Apply(Some(current), v), w) == Apply(Apply(Some(current), w), v)
  {
  }

  predicate IsAhead(read: Option<Version>, proposed: Option<Version>) {
    proposed.Some? && proposed.value.revision > (if read.Some? then read.value.revision else 0)
  }

  /** What a committed write leaves of a mapping row, told by the row it was computed from and the row it
      proposes: the first write stores the proposed row. A later one stores exactly the one group that
      the proposal is ahead in, with the fields of that group; all other fields are those of the row it
      meets, not of the row that was read. The content hash of the immutable group stays. */
  predicate Stores(read: Option<Mapping>, before: Option<Mapping>, now: Mapping, proposed: Mapping) {
    if read.None? then before.None? && now == proposed
    else
      && before.Some?
      && var was := before.value;
         if proposed.immutable.revision > read.value.immutable.revision then
           now == was.(immutable := Version(proposed.immutable.revision, was.immutable.hash))
         else if IsAhead(read.value.presentation, proposed.presentation) then
           now == was.(presentation := proposed.presentation, display := if proposed.isDiscount then proposed.display else was.display)
         else
           && IsAhead(read.value.lifecycle, proposed.lifecycle) && proposed.status.Some?
           && now == was.(lifecycle := proposed.lifecycle, status := proposed.status)
  }

  lemma CommittedWriteStores(read: Option<Mapping>, current: Option<Mapping>, proposed: Mapping)
    requires WriteOf(read, proposed).Some? && Allowed(current, WriteOf(read, proposed).value)
    ensures Stores(read, current, Written(current, WriteOf(read, proposed).value), proposed)
  {
  }

  /** A write is computed for an existing row exactly when the proposal is ahead in one group alone and has
      every field that group writes. */
  lemma ComputedExactly(read: Mapping, proposed: Mapping)
    ensures var i, p, l := proposed.immutable.revision > read.immutable.revision,
                           IsAhead(read.presentation, proposed.presentation), IsAhead(read.lifecycle, proposed.lifecycle);
            WriteOf(Some(read), proposed).Some? <==>
              || (i && !p && !l)
              || (p && !i && !l && (proposed.isDiscount ==> proposed.display.Some?))
              || (l && !i && !p && proposed.status.Some?)
  {
  }

  function WritesTo(ws: seq<Write>, d: Dimension): seq<Write> {
    if ws == [] then []
    else (if ws[0].Advance? && ws[0].dimension == d then [ws[0]] else []) + WritesTo(ws[1..], d)
  }

  lemma OneWriteKeepsGroups(current: Mapping, other: Mapping, w: Write, d: Dimension)
    requires GroupOf(current, d) == GroupOf(other, d) && w.Advance?
    ensures GroupOf(Apply(Some(current), w).value, d)
         == GroupOf((if w.dimension == d then Apply(Some(other), w) else Some(other)).value, d)
  {
  }

  /** No field is lost: after any run of advances, a group is what the advances of that group alone
      leave, as if the writers of the other groups had never run. */
  lemma {:induction false} GroupsAreIndependent(current: Mapping, other: Mapping, ws: seq<Write>, d: Dimension)
    requires GroupOf(current, d) == GroupOf(other, d)
    requires forall w | w in ws :: w.Advance?
    ensures RunWrites(Some(current), ws).Some? && RunWrites(Some(other), WritesTo(ws, d)).Some?
    ensures GroupOf(RunWrites(Some(current), ws).value, d) == GroupOf(RunWrites(Some(other), WritesTo(ws, d)).value, d)
    decreases |ws|
  {
    if ws == [] {
    } else {
      OneWriteKeepsGroups(current, other, ws[0], d);
      var next := Apply(Some(current), ws[0]).value;
      if ws[0].dimension == d {
        assert WritesTo(ws, d) == [ws[0]] + WritesTo(ws[1..], d);
        GroupsAreIndependent(next, Apply(Some(other), ws[0]).value, ws[1..], d);
      } else {
        assert WritesTo(ws, d) == [] + WritesTo(ws[1..], d) == WritesTo(ws[1..], d);
        GroupsAreIndependent(next, other, ws[1..], d);
      }
    }
  }

  lemma {:induction false} AdvancesKeepTheRest(current: Mapping, ws: seq<Write>)
    requires forall w | w in ws :: w.Advance?
    ensures var n := RunWrites(Some(current), ws);
            n.Some? && n.value.isDiscount == current.isDiscount && n.value.provider == current.provider
    decreases |ws|
  {
    if ws == [] {
    } else {
      AdvancesKeepTheRest(Apply(Some(current), ws[0]).value, ws[1..]);
    }
  }

  /** Two runs of advances, computed from whatever reads, that agree on the order within each group end
      in the same row: how the writers of different groups interleave does not matter. */
  lemma InterleavingsAgree(current: Mapping, ws: seq<Write>, vs: seq<Write>)
    requires (forall w | w in ws :: w.Advance?) && (forall v | v in vs :: v.Advance?)
    requires forall d: Dimension :: WritesTo(ws, d) == WritesTo(vs, d)
    ensures RunWrites(Some(current), ws) == RunWrites(Some(current), vs)
  {
    forall d: Dimension
      ensures RunWrites(Some(current), ws).Some? && RunWrites(Some(current), vs).Some?
              && GroupOf(RunWrites(Some(current), ws).value, d) == GroupOf(RunWrites(Some(current), vs).value, d)
    {
      GroupsAreIndependent(current, current, ws, d);
      GroupsAreIndependent(current, current, vs, d);
    }
    AdvancesKeepTheRest(current, ws);
    AdvancesKeepTheRest(current, vs);
    var a, b := RunWrites(Some(current), ws).value, RunWrites(Some(current), vs).value;
    assert GroupOf(a, Immutable) == GroupOf(b, Immutable);
    assert GroupOf(a, Presentation) == GroupOf(b, Presentation);
    assert GroupOf(a, Lifecycle) == GroupOf(b, Lifecycle);
  }

  /** A computed write that commits raises the revision of its group and leaves the others. */
  lemma RevisionsOnlyGrow(current: Mapping, w: Write, d: Dimension)
    requires Computed(w)
    ensures var n := Apply(Some(current), w).value;
            && RevisionOf(current, d) <= RevisionOf(n, d)
            && (w.Advance? && w.dimension == d && Allowed(Some(current), w) ==> RevisionOf(current, d) < RevisionOf(n, d))
            && (w.Create? || w.dimension != d ==> GroupOf(n, d) == GroupOf(current, d))
  {
    if w.Advance? { var read: Mapping :| WriteOf(Some(read), w.proposed) == Some(w); }
  }

  /** In a run of computed writes no revision ever falls. */
  lemma {:induction false} RunsOnlyGrow(current: Mapping, ws: seq<Write>, d: Dimension)
    requires forall w | w in ws :: Computed(w)
    ensures RunWrites(Some(current), ws).Some?
    ensures RevisionOf(current, d) <= RevisionOf(RunWrites(Some(current), ws).value, d)
    decreases |ws|
  {
    if ws == [] {
    } else {
      RevisionsOnlyGrow(current, ws[0], d);
      RunsOnlyGrow(Apply(Some(current), ws[0]).value, ws[1..], d);
    }
  }

  /** Of two writers that read the same row and advance the same group, only one commits. */
  lemma SameGroupIsExclusive(current: Mapping, v: Write, w: Write)
    requires v.Advance? && w.Advance? && v.dimension == w.dimension && v.expected == w.expected
    requires Computed(v) && Allowed(Some(current), v)
    ensures !Allowed(Apply(Some(current), v), w)
  {
    RevisionsOnlyGrow(current, v, v.dimension);
  }
}
