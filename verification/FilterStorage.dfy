/** The filters of the JSON-RPC server: one map of all filters and four indexes of the
    ones that have a web socket connection. */
module FilterStorage {

  datatype FilterType = FilterTypeLog | FilterTypeBlock | FilterTypePendingTx

  datatype Error = NoError | ErrNotFound

  class WsConn {
  }

  class Filter {
    const id: string
    const kind: FilterType
    const wsConn: WsConn?
    var lastPoll: int

    constructor (id: string, kind: FilterType, lastPoll: int, wsConn: WsConn?)
      ensures this.id == id && this.kind == kind && this.lastPoll == lastPoll && this.wsConn == wsConn
    {
      this.id, this.kind, this.lastPoll, this.wsConn := id, kind, lastPoll, wsConn;
    }
  }

  type Filters = map<string, Filter>

  // ------------------------------------------------------------ what the indexes are

  /** The filters of one connection. */
  function OfConn(all: Filters, conn: WsConn): Filters {
    map id | id in all && all[id].wsConn == conn :: all[id]
  }

  /** The filters of one type that have a connection. */
  function OfKind(all: Filters, kind: FilterType): Filters {
    map id | id in all && all[id].wsConn != null && all[id].kind == kind :: all[id]
  }

  /** Every filter is stored under its own id. */
  ghost predicate Keyed(all: Filters) {
    forall id :: id in all ==> all[id].id == id
  }

  /** The index by connection: exactly the connections that own a filter, each with
      exactly its filters, so none with an empty set. */
  ghost predicate IndexesConns(all: Filters, byConn: map<WsConn, Filters>) {
    && (forall conn :: conn in byConn ==> byConn[conn] == OfConn(all, conn) && byConn[conn] != map[])
    && (forall id :: id in all && all[id].wsConn != null ==> all[id].wsConn in byConn)
  }

  /** A new filter reuses the id of a filter that sits in the indexes under another
      connection or another type. */
  predicate Clash(all: Filters, id: string, kind: FilterType, wsConn: WsConn?) {
    id in all && all[id].wsConn != null && (all[id].wsConn != wsConn || all[id].kind != kind)
  }

  /** What `createFilter` does to the index of one type. */
  function KindWith(all: Filters, f: Filter, kind: FilterType): Filters {
    if f.wsConn != null && f.kind == kind then OfKind(all, kind)[f.id := f] else OfKind(all, kind)
  }

  /** What `createFilter` does to the index by connection. */
  function IndexWith(byConn: map<WsConn, Filters>, f: Filter): map<WsConn, Filters> {
    if f.wsConn == null then byConn
    else
      var own: Filters := if f.wsConn in byConn then byConn[f.wsConn] else map[];
      byConn[f.wsConn := own[f.id := f]]
  }

  /** What `deleteFilter` does to it. */
  function ConnMinus(byConn: map<WsConn, Filters>, conn: WsConn, id: string): map<WsConn, Filters> {
    if conn !in byConn then byConn
    else
      var left := byConn[conn] - {id};
      if left == map[] then byConn - {conn} else byConn[conn := left]
  }

  function IndexMinus(byConn: map<WsConn, Filters>, f: Filter): map<WsConn, Filters> {
    if f.wsConn == null then byConn else ConnMinus(byConn, f.wsConn, f.id)
  }

  lemma OfConnWithout(all: Filters, id: string, conn: WsConn)
    ensures OfConn(all - {id}, conn) == OfConn(all, conn) - {id}
  {
  }

  lemma OfKindWithout(all: Filters, id: string, kind: FilterType)
    ensures OfKind(all - {id}, kind) == OfKind(all, kind) - {id}
  {
  }

  lemma OfConnWith(all: Filters, f: Filter, conn: WsConn)
    requires f.id in all ==> all[f.id].wsConn == null || all[f.id].wsConn == f.wsConn
    ensures OfConn(all[f.id := f], conn) == if f.wsConn == conn then OfConn(all, conn)[f.id := f] else OfConn(all, conn)
  {
  }

  lemma OfKindWith(all: Filters, f: Filter, kind: FilterType)
    requires f.id in all && all[f.id].wsConn != null ==> f.wsConn != null && all[f.id].kind == f.kind
    ensures OfKind(all[f.id := f], kind) == KindWith(all, f, kind)
  {
  }

  /** Removing one filter from the index by connection, and the connection with its last. */
  lemma IndexWithout(all: Filters, byConn: map<WsConn, Filters>, id: string, byConn': map<WsConn, Filters>)
    requires IndexesConns(all, byConn) && id in all
    requires all[id].wsConn == null ==> byConn' == byConn
    requires all[id].wsConn != null ==>
      var conn := all[id].wsConn;
      var left := byConn[conn] - {id};
      byConn' == if left == map[] then byConn - {conn} else byConn[conn := left]
    ensures IndexesConns(all - {id}, byConn')
  {
    var rest := all - {id};
    forall conn | conn in byConn'
      ensures byConn'[conn] == OfConn(rest, conn) && byConn'[conn] != map[]
    {
      OfConnWithout(all, id, conn);
      if conn != all[id].wsConn {
        assert id !in OfConn(all, conn);
        assert OfConn(all, conn) - {id} == OfConn(all, conn);
      }
    }
    forall k | k in rest && rest[k].wsConn != null ensures rest[k].wsConn in byConn' {
      var conn := all[k].wsConn;
      assert k in OfConn(all, conn);
      if conn == all[id].wsConn {
        assert k in byConn[conn] - {id};
      }
    }
  }

  lemma NoClashKeeps(all: Filters, byConn: map<WsConn, Filters>, f: Filter)
    requires Keyed(all) && IndexesConns(all, byConn) && !Clash(all, f.id, f.kind, f.wsConn)
    ensures Keyed(all[f.id := f]) && IndexesConns(all[f.id := f], IndexWith(byConn, f))
    ensures forall kind :: OfKind(all[f.id := f], kind) == KindWith(all, f, kind)
  {
    var grown, byConn' := all[f.id := f], IndexWith(byConn, f);
    forall conn | conn in byConn' ensures byConn'[conn] == OfConn(grown, conn) && byConn'[conn] != map[] {
      OfConnWith(all, f, conn);
      if conn !in byConn {
        assert OfConn(all, conn) == map[];
      }
      if conn == f.wsConn {
        assert f.id in byConn'[conn];
      }
    }
    forall kind ensures OfKind(grown, kind) == KindWith(all, f, kind) {
      OfKindWith(all, f, kind);
    }
  }

  /** A clashing id leaves the replaced filter behind in an index. */
  lemma ClashBreaks(all: Filters, byConn: map<WsConn, Filters>, f: Filter)
    requires IndexesConns(all, byConn) && Clash(all, f.id, f.kind, f.wsConn) && f != all[f.id]
    ensures all[f.id].wsConn != f.wsConn ==> !IndexesConns(all[f.id := f], IndexWith(byConn, f))
    ensures all[f.id].wsConn == f.wsConn ==>
      OfKind(all, all[f.id].kind) != OfKind(all[f.id := f], all[f.id].kind)
  {
    var stale, grown := all[f.id], all[f.id := f];
    if stale.wsConn != f.wsConn {
      var conn := stale.wsConn;
      assert f.id in OfConn(all, conn) && f.id !in OfConn(grown, conn);
      assert IndexWith(byConn, f)[conn] == byConn[conn];
    } else {
      assert f.id in OfKind(all, stale.kind) && f.id !in OfKind(grown, stale.kind);
    }
  }

  /** The five maps. */
  datatype Maps = Maps(all: Filters, byConn: map<WsConn, Filters>, block: Filters, log: Filters, pendingTx: Filters)
  {
    /** They are views of one set of filters. */
    ghost predicate Consistent() {
      && Keyed(all)
      && IndexesConns(all, byConn)
      && block == OfKind(all, FilterTypeBlock)
      && log == OfKind(all, FilterTypeLog)
      && pendingTx == OfKind(all, FilterTypePendingTx)
    }
  }

  /** What that means: an index holds exactly the filters of its type that have a
      connection, and under every connection exactly the filters that belong to it. */
  lemma ConsistentMeans(m: Maps)
    requires m.Consistent()
    ensures forall id :: id in m.block <==> id in m.all && m.all[id].wsConn != null && m.all[id].kind == FilterTypeBlock
    ensures forall id :: id in m.log <==> id in m.all && m.all[id].wsConn != null && m.all[id].kind == FilterTypeLog
    ensures forall id :: id in m.pendingTx <==>
      id in m.all && m.all[id].wsConn != null && m.all[id].kind == FilterTypePendingTx
    ensures forall id :: id in m.block ==> m.block[id] == m.all[id]
    ensures forall id :: id in m.log ==> m.log[id] == m.all[id]
    ensures forall id :: id in m.pendingTx ==> m.pendingTx[id] == m.all[id]
    ensures forall conn, id :: conn in m.byConn && id in m.byConn[conn] ==>
      id in m.all && m.all[id] == m.byConn[conn][id] && m.all[id].wsConn == conn
    ensures forall id :: id in m.all && m.all[id].wsConn != null ==>
      m.all[id].wsConn in m.byConn && id in m.byConn[m.all[id].wsConn]
    ensures forall conn :: conn in m.byConn ==> m.byConn[conn] != map[]
    ensures forall id :: id in m.all ==> m.all[id].id == id
  {
  }

  function Create(m: Maps, f: Filter): Maps {
    Maps(
      m.all[f.id := f],
      IndexWith(m.byConn, f),
      if f.wsConn != null && f.kind == FilterTypeBlock then m.block[f.id := f] else m.block,
      if f.wsConn != null && f.kind == FilterTypeLog then m.log[f.id := f] else m.log,
      if f.wsConn != null && f.kind == FilterTypePendingTx then m.pendingTx[f.id := f] else m.pendingTx)
  }

  function Remove(m: Maps, f: Filter): Maps {
    Maps(
      m.all - {f.id},
      IndexMinus(m.byConn, f),
      if f.kind == FilterTypeBlock then m.block - {f.id} else m.block,
      if f.kind == FilterTypeLog then m.log - {f.id} else m.log,
      if f.kind == FilterTypePendingTx then m.pendingTx - {f.id} else m.pendingTx)
  }

  /** The index of the replaced filter's type is not touched, though it should be. */
  lemma StaleKind(m: Maps, f: Filter)
    requires m.Consistent() && f.id in m.all && f.kind != m.all[f.id].kind
    requires OfKind(m.all, m.all[f.id].kind) != OfKind(m.all[f.id := f], m.all[f.id].kind)
    ensures !Create(m, f).Consistent()
  {
    match m.all[f.id].kind
    case FilterTypeBlock => assert Create(m, f).block == m.block;
    case FilterTypeLog => assert Create(m, f).log == m.log;
    case FilterTypePendingTx => assert Create(m, f).pendingTx == m.pendingTx;
  }

  /** Creating a filter keeps the maps consistent if and only if its id does not clash. */
  lemma CreateConsistentIff(m: Maps, f: Filter)
    requires m.Consistent() && (f.id in m.all ==> m.all[f.id] != f)
    ensures Create(m, f).Consistent() <==> !Clash(m.all, f.id, f.kind, f.wsConn)
  {
    if Clash(m.all, f.id, f.kind, f.wsConn) {
      ClashBreaks(m.all, m.byConn, f);
      if m.all[f.id].wsConn == f.wsConn {
        StaleKind(m, f);
      }
    } else {
      NoClashKeeps(m.all, m.byConn, f);
      assert OfKind(m.all[f.id := f], FilterTypeBlock) == KindWith(m.all, f, FilterTypeBlock);
      assert OfKind(m.all[f.id := f], FilterTypeLog) == KindWith(m.all, f, FilterTypeLog);
      assert OfKind(m.all[f.id := f], FilterTypePendingTx) == KindWith(m.all, f, FilterTypePendingTx);
    }
  }

  const EMPTY := Maps(map[], map[], map[], map[], map[])

  /** Such a clash is reached at once: two filters with one id, created one after the
      other for two connections, leave the first one behind in the index. */
  lemma ClashFromEmpty(f: Filter, g: Filter)
    requires f.id == g.id && f.wsConn != null && g.wsConn != null && f.wsConn != g.wsConn
    ensures Create(EMPTY, f).Consistent() && Clash(Create(EMPTY, f).all, g.id, g.kind, g.wsConn)
    ensures var m := Create(Create(EMPTY, f), g);
      && !m.Consistent()
      && m.all == map[g.id := g]
      && f.wsConn in m.byConn && f.id in m.byConn[f.wsConn] && m.byConn[f.wsConn][f.id] == f
  {
    assert EMPTY.Consistent();
    CreateConsistentIff(EMPTY, f);
    CreateConsistentIff(Create(EMPTY, f), g);
  }

  lemma KindWithout(all: Filters, f: Filter, kind: FilterType)
    requires f.id in all && all[f.id] == f
    ensures OfKind(all - {f.id}, kind) == if f.kind == kind then OfKind(all, kind) - {f.id} else OfKind(all, kind)
  {
    OfKindWithout(all, f.id, kind);
    if f.kind != kind {
      assert f.id !in OfKind(all, kind);
    }
  }

  /** Removing a stored filter keeps them consistent. */
  lemma RemoveConsistent(m: Maps, f: Filter)
    requires m.Consistent() && f.id in m.all && m.all[f.id] == f
    ensures Remove(m, f).Consistent()
  {
    IndexWithout(m.all, m.byConn, f.id, IndexMinus(m.byConn, f));
    KindWithout(m.all, f, FilterTypeBlock);
    KindWithout(m.all, f, FilterTypeLog);
    KindWithout(m.all, f, FilterTypePendingTx);
  }

  /** The filters that survive closing `conn`, of which `todo` are still to be removed. */
  function Without(all: Filters, conn: WsConn, todo: set<string>): Filters {
    map id | id in all && (all[id].wsConn != conn || id in todo) :: all[id]
  }

  lemma WithoutStep(all: Filters, conn: WsConn, todo: set<string>, id: string)
    requires id in todo && id in all && all[id].wsConn == conn
    ensures Without(all, conn, todo) - {id} == Without(all, conn, todo - {id})
  {
  }

  /** A connection none of whose filters is left is not in the index. */
  lemma ConnGone(m: Maps, was: Filters, conn: WsConn)
    requires m.Consistent() && m.all == Without(was, conn, {})
    ensures conn !in m.byConn
  {
    assert OfConn(m.all, conn) == map[];
  }

  lemma UpdateTwice<K, V>(m: map<K, V>, k: K, a: V, b: V)
    ensures m[k := a][k := b] == m[k := b]
  {
  }

  lemma UpdateThenDrop<K, V>(m: map<K, V>, k: K, a: V)
    ensures m[k := a] - {k} == m - {k}
  {
  }

  /** The filters of an index, each once, in whatever order the map is visited. */
  method ListFilters(index: Filters) returns (filters: seq<Filter>)
    requires Keyed(index)
    ensures forall f :: f in filters <==> f.id in index && index[f.id] == f
    ensures forall i, j :: 0 <= i < j < |filters| ==> filters[i] != filters[j]
  {
    filters := [];
    var todo := index.Keys;
    while todo != {}
      invariant todo <= index.Keys
      invariant forall f :: f in filters <==> f.id in index && f.id !in todo && index[f.id] == f
      invariant forall i, j :: 0 <= i < j < |filters| ==> filters[i] != filters[j]
    {
      var id :| id in todo;
      todo := todo - {id};
      filters := filters + [index[id]];
    }
  }

  class Storage {
    var allFilters: Filters
    var allFiltersWithWSConn: map<WsConn, Filters>
    var blockFiltersWithWSConn: Filters
    var logFiltersWithWSConn: Filters
    var pendingTxFiltersWithWSConn: Filters

    ghost function View(): Maps
      reads this
    {
      Maps(allFilters, allFiltersWithWSConn, blockFiltersWithWSConn, logFiltersWithWSConn, pendingTxFiltersWithWSConn)
    }

    constructor ()
      ensures View().Consistent() && allFilters == map[]
    {
      allFilters, allFiltersWithWSConn := map[], map[];
      blockFiltersWithWSConn, logFiltersWithWSConn, pendingTxFiltersWithWSConn := map[], map[], map[];
    }

    /** The part of `createFilter` that writes the maps. */
    method Insert(f: Filter)
      modifies this
      ensures View() == Create(old(View()), f)
    {
      allFilters := allFilters[f.id := f];
      if f.wsConn != null {
        ghost var byConn := allFiltersWithWSConn;
        if f.wsConn !in allFiltersWithWSConn {
          allFiltersWithWSConn := allFiltersWithWSConn[f.wsConn := map[]];
        }
        var own := allFiltersWithWSConn[f.wsConn];
        UpdateTwice(byConn, f.wsConn, map[], own[f.id := f]);
        allFiltersWithWSConn := allFiltersWithWSConn[f.wsConn := own[f.id := f]];
        assert allFiltersWithWSConn == IndexWith(byConn, f);
        if f.kind == FilterTypeBlock {
          blockFiltersWithWSConn := blockFiltersWithWSConn[f.id := f];
        } else if f.kind == FilterTypeLog {
          logFiltersWithWSConn := logFiltersWithWSConn[f.id := f];
        } else if f.kind == FilterTypePendingTx {
          pendingTxFiltersWithWSConn := pendingTxFiltersWithWSConn[f.id := f];
        }
      }
    }

    /** `createFilter` with the id that was generated for it. */
    method CreateFilter(id: string, kind: FilterType, lastPoll: int, wsConn: WsConn?) returns (f: Filter)
      requires View().Consistent()
      modifies this
      ensures fresh(f) && f.id == id && f.kind == kind && f.wsConn == wsConn && f.lastPoll == lastPoll
      ensures View() == Create(old(View()), f) && allFilters == old(allFilters)[id := f]
      ensures View().Consistent() <==> !Clash(old(allFilters), id, kind, wsConn)
    {
      f := new Filter(id, kind, lastPoll, wsConn);
      CreateConsistentIff(View(), f);
      Insert(f);
    }

    /** Its lines on the index by connection. */
    method DeleteFromConn(conn: WsConn, id: string)
      modifies this`allFiltersWithWSConn
      ensures allFiltersWithWSConn == ConnMinus(old(allFiltersWithWSConn), conn, id)
    {
      if conn in allFiltersWithWSConn {
        var left := allFiltersWithWSConn[conn] - {id};
        UpdateThenDrop(allFiltersWithWSConn, conn, left);
        allFiltersWithWSConn := allFiltersWithWSConn[conn := left];
        if |left| == 0 {
          allFiltersWithWSConn := allFiltersWithWSConn - {conn};
        }
      }
    }

    /** `deleteFilter`. */
    method DeleteFilter(filter: Filter)
      modifies this
      ensures View() == Remove(old(View()), filter)
    {
      if filter.kind == FilterTypeBlock {
        blockFiltersWithWSConn := blockFiltersWithWSConn - {filter.id};
      } else if filter.kind == FilterTypeLog {
        logFiltersWithWSConn := logFiltersWithWSConn - {filter.id};
      } else if filter.kind == FilterTypePendingTx {
        pendingTxFiltersWithWSConn := pendingTxFiltersWithWSConn - {filter.id};
      }
      if filter.wsConn != null {
        DeleteFromConn(filter.wsConn, filter.id);
      }
      allFilters := allFilters - {filter.id};
    }

    method UninstallFilter(filterID: string) returns (err: Error)
      requires View().Consistent()
      modifies this
      ensures View().Consistent() && allFilters == old(allFilters) - {filterID}
      ensures err == if filterID in old(allFilters) then NoError else ErrNotFound
    {
      if filterID !in allFilters {
        return ErrNotFound;
      }
      RemoveConsistent(View(), allFilters[filterID]);
      DeleteFilter(allFilters[filterID]);
      return NoError;
    }

    /** Closing a connection removes its filters and nothing else. */
    method UninstallFilterByWSConn(wsConn: WsConn)
      requires View().Consistent()
      modifies this
      ensures View().Consistent()
      ensures var was := old(allFilters);
        allFilters == map id | id in was && was[id].wsConn != wsConn :: was[id]
      ensures wsConn !in allFiltersWithWSConn
    {
      ghost var was := allFilters;
      if wsConn !in allFiltersWithWSConn {
        assert Without(was, wsConn, {}) == was;
        return;
      }
      var filters := allFiltersWithWSConn[wsConn];
      var todo := filters.Keys;
      assert filters == OfConn(was, wsConn);
      assert Without(was, wsConn, todo) == was;
      while todo != {}
        invariant View().Consistent() && todo <= filters.Keys
        invariant allFilters == Without(was, wsConn, todo)
      {
        var id :| id in todo;
        assert id in allFilters && allFilters[id] == filters[id];
        RemoveConsistent(View(), filters[id]);
        DeleteFilter(filters[id]);
        WithoutStep(was, wsConn, todo, id);
        todo := todo - {id};
      }
      ConnGone(View(), was, wsConn);
    }

    method GetFilter(filterID: string) returns (filter: Filter?, err: Error)
      ensures filterID in allFilters <==> err == NoError
      ensures err == NoError ==> filter == allFilters[filterID]
      ensures err == ErrNotFound ==> filter == null
    {
      if filterID !in allFilters {
        return null, ErrNotFound;
      }
      return allFilters[filterID], NoError;
    }

    /** The poll time is updated in the one filter object that all maps share. */
    method UpdateFilterLastPoll(filterID: string, now: int) returns (err: Error)
      requires View().Consistent()
      modifies this`allFilters, allFilters.Values`lastPoll
      ensures View() == old(View())
      ensures err == if filterID in allFilters then NoError else ErrNotFound
      ensures forall id :: id in allFilters ==>
        allFilters[id].lastPoll == if id == filterID then now else old(allFilters[id].lastPoll)
    {
      if filterID !in allFilters {
        return ErrNotFound;
      }
      var filter := allFilters[filterID];
      filter.lastPoll := now;
      allFilters := allFilters[filterID := filter];
      return NoError;
    }

    /** All block filters with a connection, each once, in whatever order. */
    method GetAllBlockFiltersWithWSConn() returns (filters: seq<Filter>)
      requires View().Consistent()
      ensures forall f :: f in filters <==>
        f.id in allFilters && allFilters[f.id] == f && f.wsConn != null && f.kind == FilterTypeBlock
      ensures forall i, j :: 0 <= i < j < |filters| ==> filters[i] != filters[j]
    {
      filters := ListFilters(blockFiltersWithWSConn);
    }
  }
}
