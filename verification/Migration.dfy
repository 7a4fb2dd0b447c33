/** Moving a retired department's licenses and copying its approvals to a successor. */
module Migration {
  import opened Wrappers
  import opened Approval
  import opened Finite

  // ---- licenses ----

  datatype License = License(product: nat, owner: nat, slug: string)

  type Licenses = map<nat, License>

  /** UNIQUE(product_id, owning_department_id, license_slug). */
  ghost predicate Unique(t: Licenses) {
    forall i, j | i in t && j in t && i != j :: t[i] != t[j]
  }

  predicate Taken(t: Licenses, l: License, to: nat) {
    exists i | i in t :: t[i] == l.(owner := to)
  }

  function OwnedBy(t: Licenses, department: nat): set<nat> {
    set i | i in t && t[i].owner == department
  }

  /** The rows CountConflictingLicenses counts. */
  function Conflicting(t: Licenses, from: nat, to: nat): set<nat> {
    set i | i in t && t[i].owner == from && Taken(t, t[i], to)
  }

  function Movable(t: Licenses, from: nat, to: nat): set<nat> {
    set i | i in t && t[i].owner == from && !Taken(t, t[i], to)
  }

  /** The rows of `done` are moved if they were movable in the table before the statement. */
  function MovedPart(t: Licenses, done: set<nat>, from: nat, to: nat): Licenses {
    map i | i in t :: if i in done && i in Movable(t, from, to) then t[i].(owner := to) else t[i]
  }

  /** The UPDATE read all at once. */
  function Moved(t: Licenses, from: nat, to: nat): Licenses {
    map i | i in t :: if i in Movable(t, from, to) then t[i].(owner := to) else t[i]
  }

  /** The UPDATE as it runs: each row's test sees the rows moved before it. */
  function MoveRow(t: Licenses, i: nat, from: nat, to: nat): Licenses {
    if i in t && t[i].owner == from && !Taken(t, t[i], to) then t[i := t[i].(owner := to)] else t
  }

  function MoveRows(t: Licenses, order: seq<nat>, from: nat, to: nat): Licenses {
    if order == [] then t
    else MoveRow(MoveRows(t, order[..|order| - 1], from, to), order[|order| - 1], from, to)
  }

  /** A moved row never takes the place of one still to come. */
  lemma MoveRowStep(t: Licenses, done: set<nat>, i: nat, from: nat, to: nat)
    requires Unique(t) && from != to && i in t
    ensures i in MovedPart(t, done, from, to)
    ensures MoveRow(MovedPart(t, done, from, to), i, from, to) == MovedPart(t, done + {i}, from, to)
  {
    var part := MovedPart(t, done, from, to);
    if part[i].owner == from {
      assert part[i] == t[i];
      if j :| j in t && t[j] == t[i].(owner := to) {
        assert part[j] == t[j];
        assert Taken(part, t[i], to) && Taken(t, t[i], to);
      } else {
        assert !Taken(t, t[i], to);
        forall j | j in part
          ensures part[j] != t[i].(owner := to)
        {
          assert part[j] == t[j] || (j != i && part[j] == t[j].(owner := to) && t[j].owner == from);
        }
        assert !Taken(part, t[i], to);
      }
    }
    assert MoveRow(part, i, from, to).Keys == t.Keys;
  }

  function Elems(s: seq<nat>): set<nat> {
    set i | i in s
  }

  lemma {:induction false} MoveRowsPart(t: Licenses, order: seq<nat>, from: nat, to: nat)
    requires Unique(t) && from != to && Elems(order) <= t.Keys
    ensures MoveRows(t, order, from, to) == MovedPart(t, Elems(order), from, to)
  {
    if order == [] {
      assert MovedPart(t, {}, from, to) == t;
    } else {
      var init, last := order[..|order| - 1], order[|order| - 1];
      assert order == init + [last];
      assert Elems(order) == Elems(init) + {last};
      MoveRowsPart(t, init, from, to);
      assert last in order;
      MoveRowStep(t, Elems(init), last, from, to);
    }
  }

  /** Row by row in any order, with repetitions or rows of other departments, is the same as all at once. */
  lemma AnyOrder(t: Licenses, order: seq<nat>, from: nat, to: nat)
    requires Unique(t) && from != to && OwnedBy(t, from) <= Elems(order) <= t.Keys
    ensures MoveRows(t, order, from, to) == Moved(t, from, to)
  {
    MoveRowsPart(t, order, from, to);
    assert Movable(t, from, to) <= OwnedBy(t, from);
  }

  lemma MovedKeepsUnique(t: Licenses, from: nat, to: nat)
    requires Unique(t)
    ensures Unique(Moved(t, from, to))
  {
  }

  /** Every license of the source is moved or counted as conflicting, and the count is the same afterwards. */
  lemma MovedPlusSkipped(t: Licenses, from: nat, to: nat)
    requires Unique(t) && from != to
    ensures |Movable(t, from, to)| + |Conflicting(t, from, to)| == |OwnedBy(t, from)|
    ensures Conflicting(Moved(t, from, to), from, to) == Conflicting(t, from, to)
    ensures OwnedBy(Moved(t, from, to), from) == Conflicting(t, from, to)
    ensures OwnedBy(Moved(t, from, to), to) == OwnedBy(t, to) + Movable(t, from, to)
  {
    assert Movable(t, from, to) + Conflicting(t, from, to) == OwnedBy(t, from);
    DisjointUnionSize(Movable(t, from, to), Conflicting(t, from, to));
    var t' := Moved(t, from, to);
    forall i | i in t && t[i].owner == from && i !in Movable(t, from, to)
      ensures Taken(t', t'[i], to)
    {
      var j :| j in t && t[j] == t[i].(owner := to);
      assert t'[j] == t[j];
    }
    assert forall i | i in Conflicting(t, from, to) :: t'[i] == t[i];
  }

  /** A second run finds nothing to move. */
  lemma SecondRunMovesNothing(t: Licenses, from: nat, to: nat)
    requires Unique(t) && from != to
    ensures Movable(Moved(t, from, to), from, to) == {}
    ensures Moved(Moved(t, from, to), from, to) == Moved(t, from, to)
  {
    MovedPlusSkipped(t, from, to);
    var t' := Moved(t, from, to);
    assert forall i | i in Movable(t', from, to) :: i in OwnedBy(t', from) && i !in Conflicting(t', from, to);
  }

  // ---- approvals ----

  datatype ApprovalRow = ApprovalRow(
    department: nat,
    product: nat,
    status: string,
    scope: string,
    conditions: Option<string>,
    approver: Option<nat>,
    expires: Option<int>,
    active: bool,
    note: string)

  type Approvals = map<nat, ApprovalRow>

  /** The partial unique index on active approvals. */
  ghost predicate ActiveUnique(t: Approvals) {
    forall i, j | i in t && j in t && i != j && t[i].active && t[j].active ::
      t[i].department != t[j].department || t[i].product != t[j].product
  }

  predicate Known(t: Approvals, rows: seq<nat>) {
    forall i | i in rows :: i in t
  }

  predicate ActiveFor(t: Approvals, department: nat, product: nat, i: nat) {
    i in t && t[i].active && t[i].department == department && t[i].product == product
  }

  predicate Covered(t: Approvals, department: nat, product: nat) {
    exists i | i in t :: ActiveFor(t, department, product, i)
  }

  function ActiveOf(t: Approvals, department: nat): set<nat> {
    set i | i in t && t[i].active && t[i].department == department
  }

  function CopyOf(a: ApprovalRow, to: nat, approver: Option<nat>, note: string): ApprovalRow {
    ApprovalRow(to, a.product, a.status, a.scope, a.conditions, approver, a.expires, true, note)
  }

  /** The listed approvals whose product the successor does not cover yet. */
  function Copyable(t: Approvals, rows: seq<nat>, to: nat): (r: seq<nat>)
    requires Known(t, rows)
    ensures |r| <= |rows|
    ensures (forall i | i in rows :: Covered(t, to, t[i].product)) ==> r == []
    ensures forall i :: i in r <==> i in rows && !Covered(t, to, t[i].product)
  {
    if rows == [] then []
    else
      var last := rows[|rows| - 1];
      Copyable(t, rows[..|rows| - 1], to) + if Covered(t, to, t[last].product) then [] else [last]
  }

  function SourceAt(sources: seq<nat>, next: nat, i: nat): nat
    requires next <= i < next + |sources|
  {
    sources[i - next]
  }

  /** The table with copies of `sources` under the ids from `next` on. */
  function WithCopies(t: Approvals, next: nat, sources: seq<nat>, to: nat, approver: Option<nat>, note: string): Approvals
    requires Known(t, sources)
  {
    t + map i: nat | next <= i < next + |sources| :: CopyOf(t[SourceAt(sources, next, i)], to, approver, note)
  }

  /** ListActiveApprovalsForMigration: every active approval of the department once. */
  ghost predicate Lists(t: Approvals, from: nat, rows: seq<nat>) {
    && (forall i :: i in rows <==> i in ActiveOf(t, from))
    && forall j, k | 0 <= j < k < |rows| :: rows[j] != rows[k]
  }

  ghost predicate ApprovalsOk(t: Approvals, next: nat) {
    ActiveUnique(t) && forall i | i in t :: i < next
  }

  lemma {:induction false} CopyableDistinct(t: Approvals, rows: seq<nat>, to: nat)
    requires Known(t, rows)
    requires forall j, k | 0 <= j < k < |rows| :: rows[j] != rows[k]
    ensures forall j, k | 0 <= j < k < |Copyable(t, rows, to)| ::
              Copyable(t, rows, to)[j] != Copyable(t, rows, to)[k]
  {
    if rows != [] {
      var init, last := rows[..|rows| - 1], rows[|rows| - 1];
      CopyableDistinct(t, init, to);
      assert last !in init;
      assert forall i | i in Copyable(t, init, to) :: i in init;
    }
  }

  lemma CopiesAre(t: Approvals, next: nat, rows: seq<nat>, from: nat, to: nat, approver: Option<nat>, note: string, i: nat)
    requires ApprovalsOk(t, next) && Lists(t, from, rows)
    requires i in WithCopies(t, next, Copyable(t, rows, to), to, approver, note) && i !in t
    ensures var src := Copyable(t, rows, to);
            next <= i < next + |src| && SourceAt(src, next, i) in ActiveOf(t, from)
            && !Covered(t, to, t[SourceAt(src, next, i)].product)
            && WithCopies(t, next, src, to, approver, note)[i] == CopyOf(t[SourceAt(src, next, i)], to, approver, note)
  {
    var src := Copyable(t, rows, to);
    assert next <= i < next + |src|;
    assert SourceAt(src, next, i) in src;
  }

  lemma CopiesKeepActiveUnique(t: Approvals, next: nat, rows: seq<nat>, from: nat, to: nat,
                               approver: Option<nat>, note: string)
    requires ApprovalsOk(t, next) && Lists(t, from, rows) && from != to
    ensures ApprovalsOk(WithCopies(t, next, Copyable(t, rows, to), to, approver, note), next + |Copyable(t, rows, to)|)
  {
    var src := Copyable(t, rows, to);
    var t' := WithCopies(t, next, src, to, approver, note);
    CopyableDistinct(t, rows, to);
    forall i, j | i in t' && j in t' && i != j && t'[i].active && t'[j].active
      ensures t'[i].department != t'[j].department || t'[i].product != t'[j].product
    {
      if i !in t {
        CopiesAre(t, next, rows, from, to, approver, note, i);
      }
      if j !in t {
        CopiesAre(t, next, rows, from, to, approver, note, j);
      }
      if i !in t && j !in t {
        assert SourceAt(src, next, i) != SourceAt(src, next, j);
      } else if i in t && j !in t {
        assert t'[i] == t[i];
        assert !ActiveFor(t, to, t'[j].product, i);
      } else if i !in t && j in t {
        assert t'[j] == t[j];
        assert !ActiveFor(t, to, t'[i].product, j);
      }
    }
    forall i | i in t'
      ensures i < next + |src|
    {
      if i !in t {
        CopiesAre(t, next, rows, from, to, approver, note, i);
      }
    }
  }

  /** The scope lists: which users and devices an approval names. */
  type Scopes = set<(nat, nat)>

  function RecordOf(t: Approvals, scopes: Scopes, i: nat, subject: nat): Record
    requires i in t
  {
    Record(t[i].status, t[i].scope, t[i].expires, (i, subject) in scopes)
  }

  /** A product the successor did not cover gets exactly one active approval there, copied from the source. */
  lemma CopyExists(t: Approvals, next: nat, rows: seq<nat>, from: nat, to: nat, approver: Option<nat>, note: string,
                   source: nat) returns (copy: nat)
    requires ApprovalsOk(t, next) && Lists(t, from, rows) && from != to
    requires source in ActiveOf(t, from) && !Covered(t, to, t[source].product)
    ensures var t' := WithCopies(t, next, Copyable(t, rows, to), to, approver, note);
            && copy >= next && ActiveFor(t', to, t[source].product, copy)
            && t'[copy] == CopyOf(t[source], to, approver, note)
            && forall i | ActiveFor(t', to, t[source].product, i) :: i == copy
  {
    CopiesKeepActiveUnique(t, next, rows, from, to, approver, note);
    var src := Copyable(t, rows, to);
    assert source in rows && source in src;
    hide Copyable, Covered, Lists;
    var k :| 0 <= k < |src| && src[k] == source;
    copy := next + k;
    assert SourceAt(src, next, copy) == source;
    var t' := WithCopies(t, next, src, to, approver, note);
    assert t'[copy] == CopyOf(t[source], to, approver, note);
    hide WithCopies;
    assert ActiveFor(t', to, t[source].product, copy);
  }

  /**
   The copy gives every subject the source's verdict at every instant, unless the approval names its users
   or devices one by one: those lists are not copied.
   */
  lemma VerdictKeptIff(t: Approvals, next: nat, rows: seq<nat>, from: nat, to: nat, approver: Option<nat>, note: string,
                       scopes: Scopes, source: nat, copy: nat, default: string, subject: nat, now: int)
    requires ApprovalsOk(t, next) && Lists(t, from, rows) && from != to
    requires source in ActiveOf(t, from)
    requires copy in WithCopies(t, next, Copyable(t, rows, to), to, approver, note)
    requires WithCopies(t, next, Copyable(t, rows, to), to, approver, note)[copy] == CopyOf(t[source], to, approver, note)
    requires copy >= next && forall p | p in scopes :: p.0 < next
    ensures var t' := WithCopies(t, next, Copyable(t, rows, to), to, approver, note);
            Evaluate(default, Some(RecordOf(t', scopes, copy, subject)), now)
            == Evaluate(default, Some(RecordOf(t, scopes, source, subject)), now)
            <==> !(default == DEPARTMENT_DISCRETION && (source, subject) in scopes && t[source].status == APPROVED
                   && t[source].scope in {SPECIFIC_USERS, SPECIFIC_DEVICES}
                   && (t[source].expires.Some? ==> now / DAY <= t[source].expires.value / DAY))
  {
    ScopeMatters(default, RecordOf(t, scopes, source, subject), now);
    assert (copy, subject) !in scopes;
  }

  /** An approval for one user: the successor's copy names nobody, so it gives that user no approval. */
  lemma ListingLost()
    ensures var t: Approvals := map[1 := ApprovalRow(1, 7, APPROVED, SPECIFIC_USERS, None, None, None, true, "")];
            var t' := WithCopies(t, 2, Copyable(t, [1], 2), 2, None, "");
            && ApprovalsOk(t, 2) && Lists(t, 1, [1]) && 2 in t' && ActiveFor(t', 2, 7, 2)
            && Evaluate(DEPARTMENT_DISCRETION, Some(RecordOf(t, {(1, 5)}, 1, 5)), 0) == Allowed
            && Evaluate(DEPARTMENT_DISCRETION, Some(RecordOf(t', {(1, 5)}, 2, 5)), 0) == Unapproved
  {
    var t: Approvals := map[1 := ApprovalRow(1, 7, APPROVED, SPECIFIC_USERS, None, None, None, true, "")];
    assert [1][..0] == [];
    assert Copyable(t, [1], 2) == [1];
    var t' := WithCopies(t, 2, [1], 2, None, "");
    assert SourceAt([1], 2, 2) == 1;
    assert t'[2] == CopyOf(t[1], 2, None, "");
  }

  /** Products the successor covered, and pairs of other departments, keep their rows. */
  lemma OthersKept(t: Approvals, next: nat, rows: seq<nat>, from: nat, to: nat, approver: Option<nat>, note: string,
                   department: nat, product: nat, i: nat)
    requires ApprovalsOk(t, next) && Lists(t, from, rows) && from != to
    requires department != to || Covered(t, to, product) || !Covered(t, from, product)
    ensures var t' := WithCopies(t, next, Copyable(t, rows, to), to, approver, note);
            (ActiveFor(t', department, product, i) <==> ActiveFor(t, department, product, i))
            && (i in t ==> i in t' && t'[i] == t[i])
  {
    var t' := WithCopies(t, next, Copyable(t, rows, to), to, approver, note);
    if i in t' && i !in t {
      CopiesAre(t, next, rows, from, to, approver, note, i);
      var s := SourceAt(Copyable(t, rows, to), next, i);
      assert ActiveFor(t, from, t[s].product, s);
    }
  }

  /** A second run copies nothing. */
  lemma SecondRunCopiesNothing(t: Approvals, next: nat, rows: seq<nat>, again: seq<nat>, from: nat, to: nat,
                               approver: Option<nat>, note: string)
    requires ApprovalsOk(t, next) && Lists(t, from, rows) && from != to
    requires Lists(WithCopies(t, next, Copyable(t, rows, to), to, approver, note), from, again)
    ensures Copyable(WithCopies(t, next, Copyable(t, rows, to), to, approver, note), again, to) == []
  {
    var t' := WithCopies(t, next, Copyable(t, rows, to), to, approver, note);
    forall i | i in again
      ensures Covered(t', to, t'[i].product)
    {
      if i !in t {
        CopiesAre(t, next, rows, from, to, approver, note, i);
      }
      assert t'[i] == t[i] && i in ActiveOf(t, from);
      if Covered(t, to, t[i].product) {
        var j :| j in t && ActiveFor(t, to, t[i].product, j);
        assert ActiveFor(t', to, t[i].product, j);
      } else {
        var copy := CopyExists(t, next, rows, from, to, approver, note, i);
      }
    }
  }

  // ---- the handler ----

  datatype Report = Report(moved: nat, skipped: nat, copied: nat, apprSkipped: nat)

  datatype Outcome = BadRequest | Failed | Done(report: Report)

  datatype Entry = Entry(from: nat, to: nat, report: Report)

  /** What a migration that came through has done to both tables. */
  ghost predicate Migrated(l: Licenses, l': Licenses, t: Approvals, t': Approvals, next: nat, next': nat,
                           from: nat, to: nat, approver: Option<nat>, note: string, r: Report) {
    && l' == Moved(l, from, to)
    && r.moved == |Movable(l, from, to)| && r.skipped == |Conflicting(l, from, to)|
    && r.moved + r.skipped == |OwnedBy(l, from)|
    && r.copied + r.apprSkipped == |ActiveOf(t, from)|
    && next' == next + r.copied
    && exists rows :: Lists(t, from, rows) && r.copied == |Copyable(t, rows, to)|
                      && t' == WithCopies(t, next, Copyable(t, rows, to), to, approver, note)
  }

  /** Running the migration again moves and copies nothing and skips the same licenses. */
  lemma SecondRun(l: Licenses, l1: Licenses, l2: Licenses, t: Approvals, t1: Approvals, t2: Approvals,
                  n: nat, n1: nat, n2: nat, from: nat, to: nat, approver: Option<nat>, again: Option<nat>,
                  note: string, r1: Report, r2: Report)
    requires Unique(l) && ApprovalsOk(t, n) && from != to
    requires Migrated(l, l1, t, t1, n, n1, from, to, approver, note, r1)
    requires Migrated(l1, l2, t1, t2, n1, n2, from, to, again, note, r2)
    ensures r2.moved == 0 && r2.copied == 0 && r2.skipped == r1.skipped
    ensures l2 == l1 && t2 == t1 && n2 == n1
  {
    hide Moved, Movable, Conflicting, OwnedBy, WithCopies, Copyable, ApprovalsOk, Unique;
    SecondRunMovesNothing(l, from, to);
    MovedPlusSkipped(l, from, to);
    var rows :| Lists(t, from, rows) && r1.copied == |Copyable(t, rows, to)|
                && t1 == WithCopies(t, n, Copyable(t, rows, to), to, approver, note);
    var more :| Lists(t1, from, more) && r2.copied == |Copyable(t1, more, to)|
                && t2 == WithCopies(t1, n1, Copyable(t1, more, to), to, again, note);
    SecondRunCopiesNothing(t, n, rows, more, from, to, approver, note);
    NoCopies(t1, n1, to, again, note);
  }

  // ---- what a migration does, row by row ----

  /** No license of `to` has this product and slug. */
  ghost predicate PlaceFree(l: Licenses, to: nat, product: nat, slug: string) {
    forall j | j in l :: l[j].owner != to || l[j].product != product || l[j].slug != slug
  }

  /** Exactly the licenses of `from` whose place is free have changed hands, and nothing else about them. */
  ghost predicate HandedOver(l: Licenses, l': Licenses, from: nat, to: nat) {
    && l'.Keys == l.Keys
    && forall i | i in l ::
         && l'[i].product == l[i].product && l'[i].slug == l[i].slug
         && l'[i].owner == if l[i].owner == from && PlaceFree(l, to, l[i].product, l[i].slug) then to else l[i].owner
  }

  /** An active approval of the department, for a product without one at the successor. */
  ghost predicate Wanted(t: Approvals, from: nat, to: nat, s: nat) {
    && s in t && t[s].active && t[s].department == from
    && forall i | i in t :: !t[i].active || t[i].department != to || t[i].product != t[s].product
  }

  /** The successor's approval says what the department's did, and who brought it over. */
  predicate BroughtOver(a: ApprovalRow, b: ApprovalRow, to: nat, approver: Option<nat>, note: string) {
    && b.department == to && b.active && b.approver == approver && b.note == note
    && b.product == a.product && b.status == a.status && b.scope == a.scope
    && b.conditions == a.conditions && b.expires == a.expires
  }

  predicate RowsKept(t: Approvals, t': Approvals) {
    forall i | i in t :: i in t' && t'[i] == t[i]
  }

  /** Every new row is one of the successor's, brought over from a wanted approval. */
  ghost predicate NewAreWanted(t: Approvals, t': Approvals, next: nat, next': nat, from: nat, to: nat,
                               approver: Option<nat>, note: string) {
    forall i | i in t' && i !in t ::
      && next <= i < next' && t'[i].active && t'[i].department == to
      && exists s :: Wanted(t, from, to, s) && BroughtOver(t[s], t'[i], to, approver, note)
  }

  ghost predicate WantedAreNew(t: Approvals, t': Approvals, from: nat, to: nat, approver: Option<nat>, note: string) {
    forall s | Wanted(t, from, to, s) :: exists i | i in t' && i !in t :: BroughtOver(t[s], t'[i], to, approver, note)
  }

  predicate OnePerProduct(t: Approvals, t': Approvals) {
    forall i, j | i in t' && j in t' && i !in t && j !in t && i != j :: t'[i].product != t'[j].product
  }

  /** The new rows are exactly one for every wanted approval. */
  ghost predicate Copied(t: Approvals, t': Approvals, next: nat, next': nat, from: nat, to: nat,
                         approver: Option<nat>, note: string) {
    && RowsKept(t, t') && NewAreWanted(t, t', next, next', from, to, approver, note)
    && WantedAreNew(t, t', from, to, approver, note) && OnePerProduct(t, t')
  }

  lemma MovedIsHandedOver(l: Licenses, from: nat, to: nat)
    ensures HandedOver(l, Moved(l, from, to), from, to)
  {
    forall i | i in l
      ensures Taken(l, l[i], to) <==> !PlaceFree(l, to, l[i].product, l[i].slug)
    {
      if !PlaceFree(l, to, l[i].product, l[i].slug) {
        var j :| j in l && l[j].owner == to && l[j].product == l[i].product && l[j].slug == l[i].slug;
        assert l[j] == l[i].(owner := to);
      }
    }
  }

  lemma WantedIs(t: Approvals, from: nat, to: nat, s: nat)
    ensures Wanted(t, from, to, s) <==> s in ActiveOf(t, from) && !Covered(t, to, t[s].product)
  {
  }

  lemma CopyIsBroughtOver(a: ApprovalRow, to: nat, approver: Option<nat>, note: string)
    ensures BroughtOver(a, CopyOf(a, to, approver, note), to, approver, note)
  {
  }

  lemma NewRowIsCopy(t: Approvals, next: nat, rows: seq<nat>, from: nat, to: nat, approver: Option<nat>, note: string, i: nat)
    requires ApprovalsOk(t, next) && Lists(t, from, rows)
    requires i in WithCopies(t, next, Copyable(t, rows, to), to, approver, note) && i !in t
    ensures var t' := WithCopies(t, next, Copyable(t, rows, to), to, approver, note);
            && next <= i < next + |Copyable(t, rows, to)| && t'[i].active && t'[i].department == to
            && exists s :: Wanted(t, from, to, s) && BroughtOver(t[s], t'[i], to, approver, note)
  {
    hide WithCopies, Copyable, ApprovalsOk, Wanted, BroughtOver, CopyOf, Covered;
    CopiesAre(t, next, rows, from, to, approver, note, i);
    var s := SourceAt(Copyable(t, rows, to), next, i);
    WantedIs(t, from, to, s);
    CopyIsBroughtOver(t[s], to, approver, note);
    CopyFields(t[s], to, approver, note);
  }

  lemma WantedIsCopied(t: Approvals, next: nat, rows: seq<nat>, from: nat, to: nat, approver: Option<nat>, note: string, s: nat)
    requires ApprovalsOk(t, next) && Lists(t, from, rows) && from != to && Wanted(t, from, to, s)
    ensures var t' := WithCopies(t, next, Copyable(t, rows, to), to, approver, note);
            exists i | i in t' && i !in t :: BroughtOver(t[s], t'[i], to, approver, note)
  {
    WantedIs(t, from, to, s);
    hide WithCopies, Copyable, ApprovalsOk, Wanted, BroughtOver, CopyOf, Covered;
    var i := CopyExists(t, next, rows, from, to, approver, note, s);
    NewIsNew(t, next, i);
    CopyIsBroughtOver(t[s], to, approver, note);
    hide Lists, ActiveOf;
    assert ActiveFor(WithCopies(t, next, Copyable(t, rows, to), to, approver, note), to, t[s].product, i);
  }

  lemma OldRowsStay(t: Approvals, next: nat, sources: seq<nat>, to: nat, approver: Option<nat>, note: string)
    requires ApprovalsOk(t, next) && Known(t, sources)
    ensures RowsKept(t, WithCopies(t, next, sources, to, approver, note))
  {
  }

  lemma ActiveRowsDiffer(t: Approvals, next: nat)
    requires ApprovalsOk(t, next)
    ensures forall i, j | i in t && j in t && i != j && t[i].active && t[j].active && t[i].department == t[j].department ::
              t[i].product != t[j].product
  {
  }

  /** New active rows of one department are for different products. */
  lemma NewRowsDiffer(t: Approvals, t': Approvals, last: nat, next: nat, next': nat, from: nat, to: nat,
                      approver: Option<nat>, note: string)
    requires ApprovalsOk(t', last) && NewAreWanted(t, t', next, next', from, to, approver, note)
    ensures OnePerProduct(t, t')
  {
    ActiveRowsDiffer(t', last);
    hide ApprovalsOk, Wanted, BroughtOver;
  }

  lemma NewRowsAreWanted(t: Approvals, next: nat, rows: seq<nat>, from: nat, to: nat, approver: Option<nat>, note: string)
    requires ApprovalsOk(t, next) && Lists(t, from, rows) && Known(t, rows)
    ensures var src := Copyable(t, rows, to);
            NewAreWanted(t, WithCopies(t, next, src, to, approver, note), next, next + |src|, from, to, approver, note)
  {
    hide WithCopies, Copyable, Lists, ApprovalsOk, BroughtOver;
    var src := Copyable(t, rows, to);
    var t' := WithCopies(t, next, src, to, approver, note);
    forall i | i in t' && i !in t
      ensures next <= i < next + |src| && t'[i].active && t'[i].department == to
      ensures exists s :: Wanted(t, from, to, s) && BroughtOver(t[s], t'[i], to, approver, note)
    {
      NewRowIsCopy(t, next, rows, from, to, approver, note, i);
    }
  }

  lemma WantedRowsAreNew(t: Approvals, next: nat, rows: seq<nat>, from: nat, to: nat, approver: Option<nat>, note: string)
    requires ApprovalsOk(t, next) && Lists(t, from, rows) && Known(t, rows) && from != to
    ensures WantedAreNew(t, WithCopies(t, next, Copyable(t, rows, to), to, approver, note), from, to, approver, note)
  {
    hide WithCopies, Copyable, Lists, ApprovalsOk, BroughtOver;
    forall s | Wanted(t, from, to, s)
      ensures var t' := WithCopies(t, next, Copyable(t, rows, to), to, approver, note);
              exists i | i in t' && i !in t :: BroughtOver(t[s], t'[i], to, approver, note)
    {
      WantedIsCopied(t, next, rows, from, to, approver, note, s);
    }
  }

  lemma CopyableKnown(t: Approvals, rows: seq<nat>, to: nat)
    requires Known(t, rows)
    ensures Known(t, Copyable(t, rows, to))
  {
  }

  lemma CopiesAreCopied(t: Approvals, next: nat, rows: seq<nat>, from: nat, to: nat, approver: Option<nat>, note: string)
    requires ApprovalsOk(t, next) && Lists(t, from, rows) && from != to && Known(t, rows)
    ensures var src := Copyable(t, rows, to);
            Copied(t, WithCopies(t, next, src, to, approver, note), next, next + |src|, from, to, approver, note)
  {
    hide *;
    CopyableKnown(t, rows, to);
    var src := Copyable(t, rows, to);
    var t' := WithCopies(t, next, src, to, approver, note);
    OldRowsStay(t, next, src, to, approver, note);
    CopiesKeepActiveUnique(t, next, rows, from, to, approver, note);
    NewRowsAreWanted(t, next, rows, from, to, approver, note);
    NewRowsDiffer(t, t', next + |src|, next, next + |src|, from, to, approver, note);
    WantedRowsAreNew(t, next, rows, from, to, approver, note);
    CopiedIs(t, t', next, next + |src|, from, to, approver, note);
  }

  lemma CopiedIs(t: Approvals, t': Approvals, next: nat, next': nat, from: nat, to: nat, approver: Option<nat>, note: string)
    requires RowsKept(t, t') && NewAreWanted(t, t', next, next', from, to, approver, note)
    requires WantedAreNew(t, t', from, to, approver, note) && OnePerProduct(t, t')
    ensures Copied(t, t', next, next', from, to, approver, note)
  {
  }

  lemma CopyFields(a: ApprovalRow, to: nat, approver: Option<nat>, note: string)
    ensures CopyOf(a, to, approver, note).active && CopyOf(a, to, approver, note).department == to
  {
  }

  lemma NewIsNew(t: Approvals, next: nat, i: nat)
    requires ApprovalsOk(t, next) && i >= next
    ensures i !in t
  {
  }

  /** What a migration that came through has done, on the fields of the rows. */
  lemma MigratedRows(l: Licenses, l': Licenses, t: Approvals, t': Approvals, next: nat, next': nat,
                     from: nat, to: nat, approver: Option<nat>, note: string, r: Report)
    requires Unique(l) && ApprovalsOk(t, next) && from != to
    requires Migrated(l, l', t, t', next, next', from, to, approver, note, r)
    ensures HandedOver(l, l', from, to) && Copied(t, t', next, next', from, to, approver, note)
  {
    hide Unique, ApprovalsOk, Moved, Movable, Conflicting, OwnedBy, Copied, HandedOver, WithCopies, Copyable;
    MovedIsHandedOver(l, from, to);
    var rows :| Lists(t, from, rows) && r.copied == |Copyable(t, rows, to)|
                && t' == WithCopies(t, next, Copyable(t, rows, to), to, approver, note);
    ListsKnown(t, from, rows);
    CopiesAreCopied(t, next, rows, from, to, approver, note);
  }

  lemma NoCopies(t: Approvals, next: nat, to: nat, approver: Option<nat>, note: string)
    ensures WithCopies(t, next, [], to, approver, note) == t
  {
  }

  lemma WithCopiesStep(t: Approvals, next: nat, sources: seq<nat>, source: nat, to: nat,
                       approver: Option<nat>, note: string)
    requires source in t && Known(t, sources)
    ensures WithCopies(t, next, sources + [source], to, approver, note) ==
            WithCopies(t, next, sources, to, approver, note)[next + |sources| := CopyOf(t[source], to, approver, note)]
  {
  }

  lemma CopyableStep(t: Approvals, rows: seq<nat>, k: nat, to: nat)
    requires k < |rows| && Known(t, rows)
    ensures rows[k] in t
    ensures Copyable(t, rows[..k + 1], to) ==
            Copyable(t, rows[..k], to) + if Covered(t, to, t[rows[k]].product) then [] else [rows[k]]
  {
    assert rows[..k + 1][..k] == rows[..k];
  }

  lemma WithCopiesKeeps(t: Approvals, next: nat, sources: seq<nat>, i: nat, to: nat, approver: Option<nat>, note: string)
    requires i in t && i < next && Known(t, sources)
    ensures i in WithCopies(t, next, sources, to, approver, note)
            && WithCopies(t, next, sources, to, approver, note)[i] == t[i]
  {
  }

  /** Copies made for earlier products do not cover a later one. */
  lemma CoverageStable(t: Approvals, next: nat, rows: seq<nat>, k: nat, from: nat, to: nat,
                       approver: Option<nat>, note: string)
    requires ApprovalsOk(t, next) && Lists(t, from, rows) && from != to && k < |rows|
    ensures rows[k] in t && rows[k] < next && Known(t, rows[..k])
    ensures Covered(WithCopies(t, next, Copyable(t, rows[..k], to), to, approver, note), to, t[rows[k]].product)
            <==> Covered(t, to, t[rows[k]].product)
  {
    assert forall i | i in rows[..k] :: i in rows;
    assert rows[k] in rows;
    var src := Copyable(t, rows[..k], to);
    var t' := WithCopies(t, next, src, to, approver, note);
    var p := t[rows[k]].product;
    if Covered(t, to, p) {
      var i :| i in t && ActiveFor(t, to, p, i);
      assert t'[i] == t[i] && ActiveFor(t', to, p, i);
    }
    EarlierDiffer(t, rows, k, from, to);
    forall i | i in t' && i !in t
      ensures t'[i].product != p
    {
      assert SourceAt(src, next, i) in src;
    }
    assert forall i | i in t :: t'[i] == t[i];
  }

  lemma EarlierDiffer(t: Approvals, rows: seq<nat>, k: nat, from: nat, to: nat)
    requires ActiveUnique(t) && Lists(t, from, rows) && k < |rows|
    ensures rows[k] in t && Known(t, rows[..k])
    ensures forall s | s in Copyable(t, rows[..k], to) :: t[s].product != t[rows[k]].product
  {
    assert rows[k] in rows;
    assert forall i | i in rows[..k] :: i in rows && i != rows[k];
  }

  /** The table after the first `k` listed approvals. */
  function CopiedSoFar(t: Approvals, next: nat, rows: seq<nat>, k: nat, to: nat, approver: Option<nat>, note: string)
    : Approvals
    requires k <= |rows| && Known(t, rows)
  {
    WithCopies(t, next, Copyable(t, rows[..k], to), to, approver, note)
  }

  function CountSoFar(t: Approvals, rows: seq<nat>, k: nat, to: nat): nat
    requires k <= |rows| && Known(t, rows)
  {
    |Copyable(t, rows[..k], to)|
  }

  lemma CopyOneStep(t: Approvals, next: nat, rows: seq<nat>, k: nat, from: nat, to: nat,
                    approver: Option<nat>, note: string)
    requires ApprovalsOk(t, next) && Lists(t, from, rows) && from != to && k < |rows|
    requires Known(t, rows)
    ensures var now, source := CopiedSoFar(t, next, rows, k, to, approver, note), rows[k];
            && source in now && now[source] == t[source]
            && (Covered(now, to, t[source].product) ==>
                  && CopiedSoFar(t, next, rows, k + 1, to, approver, note) == now
                  && CountSoFar(t, rows, k + 1, to) == CountSoFar(t, rows, k, to))
            && (!Covered(now, to, t[source].product) ==>
                  && CopiedSoFar(t, next, rows, k + 1, to, approver, note) ==
                     now[next + CountSoFar(t, rows, k, to) := CopyOf(t[source], to, approver, note)]
                  && CountSoFar(t, rows, k + 1, to) == CountSoFar(t, rows, k, to) + 1)
  {
    hide WithCopies, Copyable, Covered, Lists;
    CoverageStable(t, next, rows, k, from, to, approver, note);
    var src := Copyable(t, rows[..k], to);
    assert src + [] == src;
    CopyableStep(t, rows, k, to);
    WithCopiesStep(t, next, src, rows[k], to, approver, note);
    WithCopiesKeeps(t, next, src, rows[k], to, approver, note);
  }

  lemma ListsKnown(t: Approvals, from: nat, rows: seq<nat>)
    requires Lists(t, from, rows)
    ensures Known(t, rows)
  {
  }

  lemma CopiedEnds(t: Approvals, next: nat, rows: seq<nat>, to: nat, approver: Option<nat>, note: string)
    requires Known(t, rows)
    ensures CopiedSoFar(t, next, rows, 0, to, approver, note) == t && CountSoFar(t, rows, 0, to) == 0
    ensures CopiedSoFar(t, next, rows, |rows|, to, approver, note)
            == WithCopies(t, next, Copyable(t, rows, to), to, approver, note)
    ensures CountSoFar(t, rows, |rows|, to) == |Copyable(t, rows, to)|
  {
    assert rows[..0] == [] && rows[..|rows|] == rows;
  }

  /** `faults(n)` says whether the n-th statement of the transaction fails. */
  class Migrations {
    var licenses: Licenses
    var approvals: Approvals
    var next: nat
    var audit: seq<Entry>

    constructor (l: Licenses, t: Approvals, n: nat)
      ensures licenses == l && approvals == t && next == n && audit == []
    {
      licenses, approvals, next, audit := l, t, n, [];
    }

    /** The UPDATE, one row after the other in an order of the engine's choosing. */
    method MigrateLicenses(from: nat, to: nat) returns (moved: nat)
      requires Unique(licenses) && from != to
      modifies this`licenses
      ensures licenses == Moved(old(licenses), from, to)
      ensures moved == |Movable(old(licenses), from, to)|
    {
      ghost var start := licenses;
      var todo := licenses.Keys;
      ghost var done: set<nat> := {};
      moved := 0;
      MovedEnds(start, from, to);
      hide *;
      while todo != {}
        invariant done + todo == start.Keys && done !! todo
        invariant licenses == MovedPart(start, done, from, to)
        invariant moved == |done * Movable(start, from, to)|
        decreases todo
      {
        var i :| i in todo;
        MovedPartStep(start, done, i, from, to);
        MovedCount(start, done, i, from, to);
        MoveOne(done, todo, i);
        if licenses[i].owner == from && !Taken(licenses, licenses[i], to) {
          licenses := licenses[i := licenses[i].(owner := to)];
          moved := moved + 1;
        }
        done, todo := done + {i}, todo - {i};
      }
      assert done == start.Keys;
    }

    method ListActiveApprovals(from: nat) returns (rows: seq<nat>)
      ensures Lists(approvals, from, rows)
      ensures |rows| == |ActiveOf(approvals, from)|
    {
      var todo, done := ActiveOf(approvals, from), {};
      rows := [];
      while todo != {}
        invariant done + todo == ActiveOf(approvals, from) && done !! todo
        invariant forall i :: i in rows <==> i in done
        invariant forall j, k | 0 <= j < k < |rows| :: rows[j] != rows[k]
        invariant |rows| + |todo| == |ActiveOf(approvals, from)|
        decreases todo
      {
        var i :| i in todo;
        rows := rows + [i];
        done, todo := done + {i}, todo - {i};
      }
    }

    /** Copy one approval unless its product is covered; says which. */
    method CopyOne(source: nat, to: nat, approver: Option<nat>, note: string, stmt: nat, faults: nat -> bool)
      returns (copied: Option<bool>)
      requires source in approvals
      modifies this`approvals, this`next
      ensures copied.None? ==> exists n :: faults(n)
      ensures copied.Some? ==> copied.value == !Covered(old(approvals), to, old(approvals)[source].product)
      ensures copied == Some(true) ==>
                next == old(next) + 1
                && approvals == old(approvals)[old(next) := CopyOf(old(approvals)[source], to, approver, note)]
      ensures copied != Some(true) ==> approvals == old(approvals) && next == old(next)
    {
      if faults(stmt) {
        return None;
      }
      var a := approvals[source];
      if Covered(approvals, to, a.product) {
        return Some(false);
      }
      if faults(stmt + 1) {
        return None;
      }
      approvals := approvals[next := CopyOf(a, to, approver, note)];
      next := next + 1;
      return Some(true);
    }

    /** The k-th listed approval, after the ones before it. */
    method CopyNext(rows: seq<nat>, k: nat, from: nat, to: nat, approver: Option<nat>, note: string,
                    faults: nat -> bool, ghost t: Approvals, ghost n: nat)
      returns (copied: Option<bool>)
      requires ApprovalsOk(t, n) && Lists(t, from, rows) && from != to && k < |rows| && Known(t, rows)
      requires approvals == CopiedSoFar(t, n, rows, k, to, approver, note)
      requires next == n + CountSoFar(t, rows, k, to)
      modifies this`approvals, this`next
      ensures copied.None? ==> exists n :: faults(n)
      ensures copied.Some? ==> approvals == CopiedSoFar(t, n, rows, k + 1, to, approver, note)
      ensures copied.Some? ==> CountSoFar(t, rows, k + 1, to) == CountSoFar(t, rows, k, to) + if copied.value then 1 else 0
      ensures copied.Some? ==> next == old(next) + if copied.value then 1 else 0
    {
      hide CopiedSoFar, CountSoFar, Covered, Lists, ApprovalsOk, Copyable, WithCopies, Known;
      ghost var now, id, source := approvals, next, rows[k];
      CopyOneStep(t, n, rows, k, from, to, approver, note);
      ghost var after := CopiedSoFar(t, n, rows, k + 1, to, approver, note);
      assert after == if Covered(now, to, now[source].product) then now else now[id := CopyOf(now[source], to, approver, note)];
      copied := CopyOne(rows[k], to, approver, note, 3 + 2 * k, faults);
    }

    method CopyApprovals(rows: seq<nat>, from: nat, to: nat, approver: Option<nat>, note: string, faults: nat -> bool)
      returns (ok: bool, copied: nat, skipped: nat)
      requires ApprovalsOk(approvals, next) && Lists(approvals, from, rows) && from != to
      modifies this`approvals, this`next
      ensures !ok ==> exists n :: faults(n)
      ensures ok ==> copied + skipped == |rows| && copied == |Copyable(old(approvals), rows, to)|
      ensures ok ==> next == old(next) + copied
      ensures ok ==> approvals == WithCopies(old(approvals), old(next), Copyable(old(approvals), rows, to), to, approver, note)
    {
      ghost var t, n := approvals, next;
      hide *;
      ListsKnown(t, from, rows);
      CopiedEnds(t, n, rows, to, approver, note);
      ok, copied, skipped := true, 0, 0;
      for k := 0 to |rows|
        invariant ok && copied + skipped == k && copied == CountSoFar(t, rows, k, to) && next == n + copied
        invariant approvals == CopiedSoFar(t, n, rows, k, to, approver, note)
      {
        var one := CopyNext(rows, k, from, to, approver, note, faults, t, n);
        if one.None? {
          return false, copied, skipped;
        }
        if one.value {
          copied := copied + 1;
        } else {
          skipped := skipped + 1;
        }
      }
    }

    /** The statements of the transaction; none of them is undone here. */
    method Transaction(from: nat, to: nat, approver: Option<nat>, note: string, faults: nat -> bool)
      returns (r: Option<Report>)
      requires Unique(licenses) && ApprovalsOk(approvals, next) && from != to
      modifies this
      ensures r.None? ==> exists n :: faults(n)
      ensures r.Some? ==> audit == old(audit) + [Entry(from, to, r.value)]
      ensures r.Some? ==> Unique(licenses) && ApprovalsOk(approvals, next)
      ensures r.Some? ==> Migrated(old(licenses), licenses, old(approvals), approvals, old(next), next,
                                   from, to, approver, note, r.value)
    {
      ghost var l, t, n := licenses, approvals, next;
      hide Moved, Movable, Conflicting, OwnedBy, WithCopies, Copyable, Lists, ApprovalsOk, Unique, ActiveOf;
      if faults(0) {
        return None;
      }
      var moved := MigrateLicenses(from, to);
      if faults(1) {
        return None;
      }
      var skipped := |Conflicting(licenses, from, to)|;
      if faults(2) {
        return None;
      }
      var rows := ListActiveApprovals(from);
      var ok, copied, apprSkipped := CopyApprovals(rows, from, to, approver, note, faults);
      var audited := 3 + 2 * |rows|;
      if !ok || faults(audited) {
        return None;
      }
      MovedPlusSkipped(l, from, to);
      MovedKeepsUnique(l, from, to);
      CopiesKeepActiveUnique(t, n, rows, from, to, approver, note);
      var report := Report(moved, skipped, copied, apprSkipped);
      audit := audit + [Entry(from, to, report)];
      r := if faults(audited + 1) then None else Some(report);
    }

    /** `retired` holds the departments by id, and whether each is retired. */
    method Migrate(retired: map<nat, bool>, from: nat, to: nat, approver: Option<nat>, note: string, faults: nat -> bool)
      returns (r: Outcome)
      requires Unique(licenses) && ApprovalsOk(approvals, next)
      modifies this
      ensures r.BadRequest? <==> !(from in retired && retired[from] && to in retired && !retired[to])
      ensures !r.Done? ==> licenses == old(licenses) && approvals == old(approvals) && next == old(next) && audit == old(audit)
      ensures r.Done? ==> audit == old(audit) + [Entry(from, to, r.report)]
      ensures r.Done? ==> Migrated(old(licenses), licenses, old(approvals), approvals, old(next), next,
                                   from, to, approver, note, r.report)
      ensures r.Done? ==> Unique(licenses) && ApprovalsOk(approvals, next)
      ensures r.Done? ==> HandedOver(old(licenses), licenses, from, to)
      ensures r.Done? ==> Copied(old(approvals), approvals, old(next), next, from, to, approver, note)
      ensures r.Failed? ==> exists n :: faults(n)
    {
      hide Migrated, Unique, ApprovalsOk, HandedOver, Copied;
      if from !in retired || !retired[from] || to !in retired || retired[to] {
        return BadRequest;
      }
      var l, t, n, entries := licenses, approvals, next, audit;
      var report := Transaction(from, to, approver, note, faults);
      if report.None? {
        licenses, approvals, next, audit := l, t, n, entries;
        return Failed;
      }
      MigratedRows(l, licenses, t, approvals, n, next, from, to, approver, note, report.value);
      r := Done(report.value);
    }
  }

  lemma MovedEnds(t: Licenses, from: nat, to: nat)
    ensures MovedPart(t, {}, from, to) == t && {} * Movable(t, from, to) == {}
    ensures MovedPart(t, t.Keys, from, to) == Moved(t, from, to)
    ensures t.Keys * Movable(t, from, to) == Movable(t, from, to)
  {
  }

  lemma MovedPartStep(t: Licenses, done: set<nat>, i: nat, from: nat, to: nat)
    requires Unique(t) && from != to && i in t
    ensures var part := MovedPart(t, done, from, to);
            i in part && MovedPart(t, done + {i}, from, to) ==
                         if part[i].owner == from && !Taken(part, part[i], to)
                         then part[i := part[i].(owner := to)] else part
  {
    hide MovedPart, Taken, Unique;
    MoveRowStep(t, done, i, from, to);
  }

  lemma MovedCount(t: Licenses, done: set<nat>, i: nat, from: nat, to: nat)
    requires Unique(t) && from != to && i in t && i !in done
    ensures var part := MovedPart(t, done, from, to);
            |(done + {i}) * Movable(t, from, to)| ==
            |done * Movable(t, from, to)| + if part[i].owner == from && !Taken(part, part[i], to) then 1 else 0
  {
    var part := MovedPart(t, done, from, to);
    MoveRowStep(t, done, i, from, to);
    var m := Movable(t, from, to);
    assert MovedPart(t, done + {i}, from, to)[i] == if i in m then t[i].(owner := to) else t[i];
    if i in m {
      assert (done + {i}) * m == done * m + {i};
    } else {
      assert (done + {i}) * m == done * m;
    }
  }
}
