/** Audit pages over two independently stored sources, merged with a two-part cursor, and
    the simple merge they add up to. */
module AuditPaging {
  import opened Collections
  import opened Ordering

  type Id = nat

  datatype Source = Control | Tenant
  datatype Row = Row(time: int, id: Id, tenant: Id, actor: Option<Id>, action: Id, entityType: Id, entity: Option<Id>)
  datatype Event = Event(row: Row, source: Source)
  datatype Position = Position(time: int, id: Id)

  /** What a filter selects by; its hash stands for the filter itself. */
  datatype AuditFilter = AuditFilter(tenant: Id, actor: Option<Id>, action: Option<Id>, entityType: Option<Id>,
                                     entity: Option<Id>, from: Option<int>, to: Option<int>)
  datatype Cursor = Cursor(hash: AuditFilter, control: Option<Position>, tenant: Option<Position>)
  datatype Page = Page(data: seq<Event>, next: Option<Cursor>)
  datatype Listing = Listed(page: Page) | InvalidCursor | OtherFilters | InvalidScope

  type Limit = n: nat | 1 <= n witness 1

  /** The two stores, and the tenant the request runs as. */
  datatype World = World(control: seq<Row>, tenant: seq<Row>, scope: Id)

  // ---------- the two queries ----------

  predicate Matches(f: AuditFilter, r: Row) {
    && r.tenant == f.tenant
    && (f.actor.Some? ==> r.actor == f.actor)
    && (f.action.Some? ==> r.action == f.action.value)
    && (f.entityType.Some? ==> r.entityType == f.entityType.value)
    && (f.entity.Some? ==> r.entity == f.entity)
    && (f.from.Some? ==> f.from.value <= r.time)
    && (f.to.Some? ==> r.time <= f.to.value)
  }

  predicate After(cursor: Option<Position>, r: Row) {
    cursor.Some? ==> r.time < cursor.value.time || (r.time == cursor.value.time && r.id < cursor.value.id)
  }

  function Where(f: AuditFilter, cursor: Option<Position>): Row -> bool {
    (r: Row) => Matches(f, r) && After(cursor, r)
  }

  /** ORDER BY occurred_at DESC, id DESC */
  predicate Newer(a: Row, b: Row) {
    a.time > b.time || (a.time == b.time && a.id > b.id)
  }

  function Limited<T>(s: seq<T>, limit: nat): seq<T> {
    if |s| <= limit then s else s[..limit]
  }

  function Selected(store: seq<Row>, f: AuditFilter, cursor: Option<Position>): seq<Row> {
    Sort(Filter(store, Where(f, cursor)), Newer)
  }

  function Query(store: seq<Row>, f: AuditFilter, cursor: Option<Position>, limit: Limit): seq<Row> {
    Limited(Selected(store, f, cursor), limit + 1)
  }

  // ---------- one page ----------

  function AsEvent(source: Source): Row -> Event {
    (r: Row) => Event(r, source)
  }

  /** compare: time descending, id descending, control before tenant. */
  predicate Before(x: Event, y: Event) {
    if x.row.time != y.row.time then x.row.time > y.row.time
    else if x.row.id != y.row.id then x.row.id > y.row.id
    else x.source == Control && y.source == Tenant
  }

  function Merge(control: seq<Row>, tenant: seq<Row>): seq<Event> {
    Sort(Map(control, AsEvent(Control)) + Map(tenant, AsEvent(Tenant)), Before)
  }

  function OfSource(source: Source): Event -> bool {
    (e: Event) => e.source == source
  }

  /** page.filter(source).at(-1), else what the previous cursor said. */
  function NextPosition(page: seq<Event>, source: Source, previous: Option<Position>): Option<Position> {
    var own := Filter(page, OfSource(source));
    if |own| == 0 then previous
    else var last := own[|own| - 1].row; Some(Position(last.time, last.id))
  }

  function PageOf(w: World, f: AuditFilter, limit: Limit, control: Option<Position>, tenant: Option<Position>): Page {
    var events := Merge(Query(w.control, f, control, limit), Query(w.tenant, f, tenant, limit));
    var page := Limited(events, limit);
    Page(page,
         if |events| <= limit then None
         else Some(Cursor(f, NextPosition(page, Control, control), NextPosition(page, Tenant, tenant))))
  }

  function List(w: World, f: AuditFilter, limit: Limit, cursor: Option<Cursor>): Listing {
    if cursor.Some? && cursor.value.control.None? && cursor.value.tenant.None? then InvalidCursor
    else if cursor.Some? && cursor.value.hash != f then OtherFilters
    else if w.scope != f.tenant then InvalidScope
    else
      Listed(PageOf(w, f, limit, ControlPart(cursor), TenantPart(cursor)))
  }

  function ControlPart(cursor: Option<Cursor>): Option<Position> {
    if cursor.None? then None else cursor.value.control
  }

  function TenantPart(cursor: Option<Cursor>): Option<Position> {
    if cursor.None? then None else cursor.value.tenant
  }

  // ---------- increasing lists ----------

  /** In a list that increases through members of another, nothing stands later than there. */
  lemma {:induction false} IndexInSubset<T>(a: seq<T>, f: seq<T>, less: (T, T) -> bool, p: nat, i: nat)
    requires Increasing(a, less) && Increasing(f, less) && Decides(f, less)
    requires forall x | x in a :: x in f
    requires p < |a| && i < |f| && a[p] == f[i]
    ensures p <= i
  {
    if p != 0 {
      assert a[p - 1] in a;
      var j: nat :| j < |f| && f[j] == a[p - 1];
      assert less(a[p - 1], a[p]);
      IndexInSubset(a, f, less, p - 1, j);
    }
  }

  /** A list that holds only members of f, among them its first n, starts like f. */
  lemma {:induction false} TopAgrees<T>(e: seq<T>, f: seq<T>, less: (T, T) -> bool, n: nat)
    requires Increasing(e, less) && Increasing(f, less) && Decides(f, less)
    requires forall x | x in e :: x in f
    requires n <= |f| && forall i | 0 <= i < n :: f[i] in e
    ensures n <= |e| && e[..n] == f[..n]
  {
    if n != 0 {
      TopAgrees(e, f, less, n - 1);
      assert f[n - 1] in e;
      var j: nat :| j < |e| && e[j] == f[n - 1];
      IndexInSubset(e, f, less, j, n - 1);
      assert e[..n] == e[..n - 1] + [e[n - 1]];
      assert f[..n] == f[..n - 1] + [f[n - 1]];
    }
  }

  // ---------- unique keys make both orders total ----------

  ghost predicate UniqueKeys(s: seq<Row>) {
    forall i, j | 0 <= i < j < |s| :: s[i].time != s[j].time || s[i].id != s[j].id
  }

  lemma {:induction false} FilterUnique(s: seq<Row>, p: Row -> bool)
    requires UniqueKeys(s)
    ensures UniqueKeys(Filter(s, p))
  {
    if |s| != 0 {
      var front := s[..|s| - 1];
      FilterUnique(front, p);
      FilterMembers(front, p);
      var r := Filter(front, p);
      forall i | 0 <= i < |r| ensures r[i].time != s[|s| - 1].time || r[i].id != s[|s| - 1].id {
        assert r[i] in front;
      }
    }
  }

  lemma UniqueDecides(s: seq<Row>)
    requires UniqueKeys(s)
    ensures Distinct(s) && Decides(s, Newer)
  {
    forall x, y | x in s && y in s && x != y ensures Newer(x, y) || Newer(y, x) {
      var i :| 0 <= i < |s| && s[i] == x;
      var j :| 0 <= j < |s| && s[j] == y;
    }
  }

  lemma SelectedExact(store: seq<Row>, f: AuditFilter, cursor: Option<Position>)
    requires UniqueKeys(store)
    ensures Increasing(Selected(store, f, cursor), Newer)
    ensures forall r | r in Selected(store, f, cursor) :: r in store && Matches(f, r) && After(cursor, r)
    ensures forall r | r in store && Matches(f, r) && After(cursor, r) :: r in Selected(store, f, cursor)
  {
    var s := Filter(store, Where(f, cursor));
    FilterUnique(store, Where(f, cursor));
    FilterMembers(store, Where(f, cursor));
    UniqueDecides(s);
    SortIncreasing(s, Newer);
    SortMembers(s, Newer);
  }

  predicate InMerge(control: seq<Row>, tenant: seq<Row>, e: Event) {
    if e.source == Control then e.row in control else e.row in tenant
  }

  lemma MapMember(s: seq<Row>, source: Source, e: Event)
    ensures e in Map(s, AsEvent(source)) <==> e.source == source && e.row in s
  {
    if e in Map(s, AsEvent(source)) {
      var i :| 0 <= i < |s| && Map(s, AsEvent(source))[i] == e;
    }
    if e.source == source && e.row in s {
      var i :| 0 <= i < |s| && s[i] == e.row;
      assert Map(s, AsEvent(source))[i] == e;
    }
  }

  lemma MergeDecides(control: seq<Row>, tenant: seq<Row>)
    requires Increasing(control, Newer) && Increasing(tenant, Newer)
    ensures var s := Map(control, AsEvent(Control)) + Map(tenant, AsEvent(Tenant)); Distinct(s) && Decides(s, Before)
  {
    var s := Map(control, AsEvent(Control)) + Map(tenant, AsEvent(Tenant));
    forall i, j | 0 <= i < j < |s| ensures s[i] != s[j] {
      if j < |control| { assert Newer(control[i], control[j]); }
      if |control| <= i { assert Newer(tenant[i - |control|], tenant[j - |control|]); }
    }
    forall x, y | x in s && y in s && x != y ensures Before(x, y) || Before(y, x) {
      var i :| 0 <= i < |s| && s[i] == x;
      var j :| 0 <= j < |s| && s[j] == y;
      if x.source == y.source == Control { assert i < j ==> Newer(control[i], control[j]); }
      if x.source == y.source == Tenant { assert i < j ==> Newer(tenant[i - |control|], tenant[j - |control|]); }
    }
  }

  /** A merge holds exactly the rows of both lists, in order, each once. */
  lemma MergeExact(control: seq<Row>, tenant: seq<Row>)
    requires Increasing(control, Newer) && Increasing(tenant, Newer)
    ensures Increasing(Merge(control, tenant), Before)
    ensures forall e :: e in Merge(control, tenant) <==> InMerge(control, tenant, e)
    ensures Decides(Merge(control, tenant), Before)
  {
    var s := Map(control, AsEvent(Control)) + Map(tenant, AsEvent(Tenant));
    MergeDecides(control, tenant);
    SortIncreasing(s, Before);
    SortMembers(s, Before);
    DecidesSome(s, Merge(control, tenant), Before);
    forall e ensures e in Merge(control, tenant) <==> InMerge(control, tenant, e) {
      MapMember(control, Control, e);
      MapMember(tenant, Tenant, e);
    }
  }

  // ---------- one page is the top of the full merge ----------

  function Full(w: World, f: AuditFilter, control: Option<Position>, tenant: Option<Position>): seq<Event> {
    Merge(Selected(w.control, f, control), Selected(w.tenant, f, tenant))
  }

  ghost predicate Unique(w: World) {
    UniqueKeys(w.control) && UniqueKeys(w.tenant)
  }

  lemma LimitedIncreasing(s: seq<Row>, n: nat)
    requires Increasing(s, Newer)
    ensures Increasing(Limited(s, n), Newer)
    ensures forall r | r in Limited(s, n) :: r in s
  {}

  lemma OwnEventsIncrease(s: seq<Row>, source: Source)
    requires Increasing(s, Newer)
    ensures Increasing(Map(s, AsEvent(source)), Before)
  {
    forall i, j | 0 <= i < j < |s| ensures Before(AsEvent(source)(s[i]), AsEvent(source)(s[j])) {
      assert Newer(s[i], s[j]);
    }
  }

  /** The k-th event of a merge is among the first k + 1 rows of its own source. */
  lemma SoonOfItsSource(control: seq<Row>, tenant: seq<Row>, source: Source, i: nat, n: nat)
    requires Increasing(control, Newer) && Increasing(tenant, Newer)
    requires i < |Merge(control, tenant)| && i < n && Merge(control, tenant)[i].source == source
    ensures Merge(control, tenant)[i].row in Limited(if source == Control then control else tenant, n)
  {
    var s := if source == Control then control else tenant;
    var m, own := Merge(control, tenant), Map(s, AsEvent(source));
    MergeExact(control, tenant);
    assert m[i] in m;
    var p: nat :| p < |s| && s[p] == m[i].row;
    OwnEventsIncrease(s, source);
    forall e | e in own ensures e in m { MapMember(s, source, e); }
    IndexInSubset(own, m, Before, p, i);
    assert s[p] == Limited(s, n)[p];
  }

  lemma SubsetShorter<T>(e: seq<T>, f: seq<T>, less: (T, T) -> bool)
    requires Increasing(e, less) && Increasing(f, less) && Decides(f, less)
    requires forall x | x in e :: x in f
    ensures |e| <= |f|
  {
    if |e| != 0 {
      assert e[|e| - 1] in e;
      var i: nat :| i < |f| && f[i] == e[|e| - 1];
      IndexInSubset(e, f, less, |e| - 1, i);
    }
  }

  /** Looking only n rows into each source decides the first n events of the merge, and
      whether there are more. */
  lemma MergeOfLimited(control: seq<Row>, tenant: seq<Row>, n: nat)
    requires Increasing(control, Newer) && Increasing(tenant, Newer)
    ensures Limited(Merge(Limited(control, n), Limited(tenant, n)), n) == Limited(Merge(control, tenant), n)
  {
    var c, t := Limited(control, n), Limited(tenant, n);
    var e, f := Merge(c, t), Merge(control, tenant);
    LimitedIncreasing(control, n);
    LimitedIncreasing(tenant, n);
    MergeExact(c, t);
    MergeExact(control, tenant);
    var k := if |f| <= n then |f| else n;
    forall i | 0 <= i < k ensures f[i] in e {
      SoonOfItsSource(control, tenant, f[i].source, i, n);
    }
    TopAgrees(e, f, Before, k);
    SubsetShorter(e, f, Before);
  }

  lemma SameTop<T>(s: seq<T>, t: seq<T>, limit: nat)
    requires Limited(s, limit + 1) == Limited(t, limit + 1)
    ensures Limited(s, limit) == Limited(t, limit) && (|s| <= limit <==> |t| <= limit)
  {
    assert Limited(s, limit) == Limited(Limited(s, limit + 1), limit);
    assert Limited(t, limit) == Limited(Limited(t, limit + 1), limit);
  }

  lemma PageIsTop(w: World, f: AuditFilter, limit: Limit, control: Option<Position>, tenant: Option<Position>)
    requires Unique(w)
    ensures var page := PageOf(w, f, limit, control, tenant);
            && page.data == Limited(Full(w, f, control, tenant), limit)
            && (page.next.None? <==> |Full(w, f, control, tenant)| <= limit)
  {
    SelectedExact(w.control, f, control);
    SelectedExact(w.tenant, f, tenant);
    var events := Merge(Query(w.control, f, control, limit), Query(w.tenant, f, tenant, limit));
    var full := Full(w, f, control, tenant);
    MergeOfLimited(Selected(w.control, f, control), Selected(w.tenant, f, tenant), limit + 1);
    SameTop(events, full, limit);
  }

  // ---------- the next cursor continues exactly after the page ----------

  /** The cursor a page hands out for a source separates the page from the rest of the merge. */
  lemma CursorSeparates(full: seq<Event>, n: nat, source: Source, previous: Option<Position>, e: Event)
    requires Increasing(full, Before) && Decides(full, Before) && n <= |full|
    requires e in full && e.source == source && After(previous, e.row)
    ensures e in full[n..] <==> After(NextPosition(full[..n], source, previous), e.row)
  {
    var page := full[..n];
    var own := Filter(page, OfSource(source));
    FilterMembers(page, OfSource(source));
    FilterIncreasing(page, OfSource(source), Before);
    var k :| 0 <= k < |full| && full[k] == e;
    if k < n {
      assert page[k] == e;
      assert e in own;
      var p :| 0 <= p < |own| && own[p] == e;
      assert p < |own| - 1 ==> Before(own[p], own[|own| - 1]);
      forall j | n <= j < |full| ensures full[j] != e { assert Before(full[k], full[j]); }
    } else {
      assert full[n..][k - n] == e;
      if |own| != 0 {
        var last := own[|own| - 1];
        assert last in own;
        var j :| 0 <= j < n && page[j] == last;
        assert Before(full[j], full[k]);
      }
    }
  }

  /** A source's cursor only moves on. */
  lemma CursorAdvances(page: seq<Event>, source: Source, previous: Option<Position>, r: Row)
    requires forall e | e in page && e.source == source :: After(previous, e.row)
    requires After(NextPosition(page, source, previous), r)
    ensures After(previous, r)
  {
    var own := Filter(page, OfSource(source));
    FilterMembers(page, OfSource(source));
    if |own| != 0 { assert own[|own| - 1] in own; }
  }

  lemma FullExact(w: World, f: AuditFilter, control: Option<Position>, tenant: Option<Position>)
    requires Unique(w)
    ensures Increasing(Full(w, f, control, tenant), Before) && Decides(Full(w, f, control, tenant), Before)
    ensures forall e :: e in Full(w, f, control, tenant) <==> Listable(w, f, control, tenant, e)
  {
    SelectedExact(w.control, f, control);
    SelectedExact(w.tenant, f, tenant);
    MergeExact(Selected(w.control, f, control), Selected(w.tenant, f, tenant));
  }

  predicate Listable(w: World, f: AuditFilter, control: Option<Position>, tenant: Option<Position>, e: Event) {
    && Matches(f, e.row)
    && (e.source == Control ==> e.row in w.control && After(control, e.row))
    && (e.source == Tenant ==> e.row in w.tenant && After(tenant, e.row))
  }

  lemma RestMember(w: World, f: AuditFilter, n: nat, control: Option<Position>, tenant: Option<Position>, e: Event)
    requires Unique(w) && n <= |Full(w, f, control, tenant)|
    ensures var full := Full(w, f, control, tenant);
            e in full[n..] <==> Listable(w, f, NextPosition(full[..n], Control, control),
                                         NextPosition(full[..n], Tenant, tenant), e)
  {
    var full := Full(w, f, control, tenant);
    var previous := if e.source == Control then control else tenant;
    FullExact(w, f, control, tenant);
    if e in full {
      CursorSeparates(full, n, e.source, previous, e);
    } else {
      forall x | x in full[..n] && x.source == e.source ensures After(previous, x.row) { assert x in full; }
      if After(NextPosition(full[..n], e.source, previous), e.row) {
        CursorAdvances(full[..n], e.source, previous, e.row);
      }
    }
  }

  /** What follows a page's cursor is exactly what the page left of the merge. */
  lemma NextContinues(w: World, f: AuditFilter, n: nat, control: Option<Position>, tenant: Option<Position>)
    requires Unique(w) && n <= |Full(w, f, control, tenant)|
    ensures var full := Full(w, f, control, tenant);
            Full(w, f, NextPosition(full[..n], Control, control), NextPosition(full[..n], Tenant, tenant)) == full[n..]
  {
    var full := Full(w, f, control, tenant);
    var c, t := NextPosition(full[..n], Control, control), NextPosition(full[..n], Tenant, tenant);
    FullExact(w, f, control, tenant);
    FullExact(w, f, c, t);
    forall e ensures e in full[n..] <==> e in Full(w, f, c, t) { RestMember(w, f, n, control, tenant, e); }
    IncreasingUnique(Full(w, f, c, t), full[n..], Before);
  }

  // ---------- following the cursors ----------

  predicate Ours(f: AuditFilter, cursor: Option<Cursor>) {
    cursor.Some? ==> cursor.value.hash == f && (cursor.value.control.Some? || cursor.value.tenant.Some?)
  }

  function Left(w: World, f: AuditFilter, cursor: Option<Cursor>): seq<Event> {
    Full(w, f, ControlPart(cursor), TenantPart(cursor))
  }

  /** A page is never empty while there is more, so its cursor is one the service accepts back,
      and it leaves exactly the rest. */
  lemma PageStep(w: World, f: AuditFilter, limit: Limit, cursor: Option<Cursor>)
    requires Unique(w) && w.scope == f.tenant && Ours(f, cursor)
    ensures List(w, f, limit, cursor).Listed?
    ensures var page, left := List(w, f, limit, cursor).page, Left(w, f, cursor);
            if page.next.None? then page.data == left
            else Ours(f, page.next) && |page.data| == limit && page.data + Left(w, f, page.next) == left
  {
    var control, tenant := ControlPart(cursor), TenantPart(cursor);
    var page, left := PageOf(w, f, limit, control, tenant), Left(w, f, cursor);
    PageIsTop(w, f, limit, control, tenant);
    if page.next.Some? {
      NextContinues(w, f, limit, control, tenant);
      assert page.data == left[..limit];
      FilterMembers(page.data, OfSource(page.data[0].source));
      assert page.data[0] in page.data;
      assert left == left[..limit] + left[limit..];
    }
  }

  /** The pages a client gets by following nextCursor until it is null, asking each time for
      any number of events it likes. That this function terminates is part of the claim. */
  ghost function Follow(w: World, f: AuditFilter, limits: nat -> Limit, k: nat, cursor: Option<Cursor>): seq<Event>
    requires Unique(w) && w.scope == f.tenant && Ours(f, cursor)
    decreases |Left(w, f, cursor)|
  {
    PageStep(w, f, limits(k), cursor);
    var page := List(w, f, limits(k), cursor).page;
    if page.next.None? then page.data else page.data + Follow(w, f, limits, k + 1, page.next)
  }

  lemma {:induction false} FollowIsLeft(w: World, f: AuditFilter, limits: nat -> Limit, k: nat, cursor: Option<Cursor>)
    requires Unique(w) && w.scope == f.tenant && Ours(f, cursor)
    ensures Follow(w, f, limits, k, cursor) == Left(w, f, cursor)
    decreases |Left(w, f, cursor)|
  {
    PageStep(w, f, limits(k), cursor);
    var page := List(w, f, limits(k), cursor).page;
    if page.next.Some? { FollowIsLeft(w, f, limits, k + 1, page.next); }
  }

  /** The simple merge: every matching row of both stores, sorted once. */
  function SimpleMerge(w: World, f: AuditFilter): seq<Event> {
    Sort(Map(Filter(w.control, (r: Row) => Matches(f, r)), AsEvent(Control))
         + Map(Filter(w.tenant, (r: Row) => Matches(f, r)), AsEvent(Tenant)), Before)
  }

  lemma SimpleMergeExact(w: World, f: AuditFilter)
    requires Unique(w)
    ensures Left(w, f, None) == SimpleMerge(w, f)
  {
    var c, t := Filter(w.control, (r: Row) => Matches(f, r)), Filter(w.tenant, (r: Row) => Matches(f, r));
    var s := Map(c, AsEvent(Control)) + Map(t, AsEvent(Tenant));
    var left := Left(w, f, None);
    FullExact(w, f, None, None);
    FilterMembers(w.control, (r: Row) => Matches(f, r));
    FilterMembers(w.tenant, (r: Row) => Matches(f, r));
    forall e ensures e in s <==> e in left {
      MapMember(c, Control, e);
      MapMember(t, Tenant, e);
    }
    FilterUnique(w.control, (r: Row) => Matches(f, r));
    FilterUnique(w.tenant, (r: Row) => Matches(f, r));
    UnsortedDistinct(c, t);
    DecidesSome(left, s, Before);
    SortUnique(s, left, Before);
  }

  lemma UnsortedDistinct(control: seq<Row>, tenant: seq<Row>)
    requires UniqueKeys(control) && UniqueKeys(tenant)
    ensures Distinct(Map(control, AsEvent(Control)) + Map(tenant, AsEvent(Tenant)))
  {}

  /** The event is recorded in its source's store for the tenant the request runs as, is of the given
      actor, action and entity where one is given, and lies between the given times. */
  ghost predicate Selects(w: World, f: AuditFilter, e: Event) {
    && (if e.source == Control then e.row in w.control else e.row in w.tenant)
    && e.row.tenant == w.scope
    && (f.actor.Some? ==> e.row.actor.Some? && e.row.actor.value == f.actor.value)
    && (f.action.Some? ==> e.row.action == f.action.value)
    && (f.entityType.Some? ==> e.row.entityType == f.entityType.value)
    && (f.entity.Some? ==> e.row.entity.Some? && e.row.entity.value == f.entity.value)
    && (f.from.Some? ==> e.row.time >= f.from.value) && (f.to.Some? ==> e.row.time <= f.to.value)
  }

  /** Later time first, then greater id, then the control store; never the same event. */
  ghost predicate NewestFirst(x: Event, y: Event) {
    || x.row.time > y.row.time
    || (x.row.time == y.row.time && x.row.id > y.row.id)
    || (x.row.time == y.row.time && x.row.id == y.row.id && x.source == Control && y.source == Tenant)
  }

  /** A request is answered exactly for the caller's own tenant, without a cursor or with one that this
      filter's pages gave out. */
  lemma ListedExactly(w: World, f: AuditFilter, limit: Limit, cursor: Option<Cursor>)
    ensures List(w, f, limit, cursor).Listed?
            <==> && f.tenant == w.scope
                 && (cursor.Some? ==>
                       cursor.value.hash == f && (cursor.value.control.Some? || cursor.value.tenant.Some?))
  {}

  /** Any single page holds at most the limit of events, all selected, newest first, and each beyond the
      cursor's position in its own source; none selected and beyond is passed over for one on the page. */
  lemma PageHolds(w: World, f: AuditFilter, limit: Limit, cursor: Option<Cursor>)
    requires Unique(w) && List(w, f, limit, cursor).Listed?
    ensures var data := List(w, f, limit, cursor).page.data;
            && |data| <= limit
            && (forall e | e in data :: Selects(w, f, e) && Beyond(cursor, e))
            && (forall i, j | 0 <= i < j < |data| :: NewestFirst(data[i], data[j]))
            && (forall e | Selects(w, f, e) && Beyond(cursor, e) && e !in data ::
                  |data| == limit && forall x | x in data :: NewestFirst(x, e))
  {
    var data, left := List(w, f, limit, cursor).page.data, Left(w, f, cursor);
    PageIsTop(w, f, limit, ControlPart(cursor), TenantPart(cursor));
    FullExact(w, f, ControlPart(cursor), TenantPart(cursor));
    forall e ensures e in left <==> Selects(w, f, e) && Beyond(cursor, e) {}
    forall i, j | 0 <= i < j < |left| ensures NewestFirst(left[i], left[j]) { assert Before(left[i], left[j]); }
    forall e | Selects(w, f, e) && Beyond(cursor, e) && e !in data
      ensures |data| == limit && forall x | x in data :: NewestFirst(x, e)
    {
      assert e in left;
      var j :| 0 <= j < |left| && left[j] == e;
      assert forall i | 0 <= i < |data| :: data[i] == left[i] && data[i] in data;
    }
  }

  ghost predicate Beyond(cursor: Option<Cursor>, e: Event) {
    cursor.Some? ==>
      var p := if e.source == Control then cursor.value.control else cursor.value.tenant;
      p.Some? ==> e.row.time < p.value.time || (e.row.time == p.value.time && e.row.id < p.value.id)
  }

  /** Paging equals the simple merge: whatever the limits, following nextCursor from the first
      page to null lists every matching event of both sources once, in order. */
  lemma PagingIsMerge(w: World, f: AuditFilter, limits: nat -> Limit)
    requires Unique(w) && w.scope == f.tenant
    ensures Follow(w, f, limits, 0, None) == SimpleMerge(w, f)
    ensures forall e :: e in Follow(w, f, limits, 0, None) <==> Selects(w, f, e)
    ensures forall i, j | 0 <= i < j < |Follow(w, f, limits, 0, None)| ::
              NewestFirst(Follow(w, f, limits, 0, None)[i], Follow(w, f, limits, 0, None)[j])
  {
    FollowIsLeft(w, f, limits, 0, None);
    SimpleMergeExact(w, f);
    FullExact(w, f, None, None);
    forall e ensures e in Left(w, f, None) <==> Selects(w, f, e) {}
    forall i, j | 0 <= i < j < |Left(w, f, None)| ensures NewestFirst(Left(w, f, None)[i], Left(w, f, None)[j]) {
      assert Before(Left(w, f, None)[i], Left(w, f, None)[j]);
    }
  }

  ghost predicate SameAfter(s: seq<Row>, s': seq<Row>, f: AuditFilter, cursor: Option<Position>) {
    && (forall r | r in s && Matches(f, r) && After(cursor, r) :: r in s')
    && (forall r | r in s' && Matches(f, r) && After(cursor, r) :: r in s)
  }

  lemma SelectedSame(s: seq<Row>, s': seq<Row>, f: AuditFilter, cursor: Option<Position>)
    requires UniqueKeys(s) && UniqueKeys(s') && SameAfter(s, s', f, cursor)
    ensures Selected(s, f, cursor) == Selected(s', f, cursor)
  {
    SelectedExact(s, f, cursor);
    SelectedExact(s', f, cursor);
    FilterUnique(s, Where(f, cursor));
    UniqueDecides(Filter(s, Where(f, cursor)));
    SortMembers(Filter(s, Where(f, cursor)), Newer);
    DecidesSome(Filter(s, Where(f, cursor)), Selected(s, f, cursor), Newer);
    IncreasingUnique(Selected(s, f, cursor), Selected(s', f, cursor), Newer);
  }

  /** Events recorded while a client pages, at or newer than what it has read of their source,
      change none of the pages still to come. */
  lemma LaterPagesStable(w: World, w': World, f: AuditFilter, limit: Limit, cursor: Option<Cursor>)
    requires Unique(w) && Unique(w') && w.scope == w'.scope
    requires SameAfter(w.control, w'.control, f, ControlPart(cursor))
    requires SameAfter(w.tenant, w'.tenant, f, TenantPart(cursor))
    ensures List(w, f, limit, cursor) == List(w', f, limit, cursor)
  {
    SelectedSame(w.control, w'.control, f, ControlPart(cursor));
    SelectedSame(w.tenant, w'.tenant, f, TenantPart(cursor));
  }
}
