/**
 * The CRI container store (internal/cri/store/container/container.go): containers by id,
 * an index that resolves (possibly truncated) ids, and the container constructor. The
 * read/write lock only serialises access and is not modelled.
 */
module CriContainerStore {
  import opened Errdefs
  import opened Options
  import CriContainerStart

  datatype Metadata = Metadata(id: string, name: string, sandboxID: string, processLabel: string, logPath: string)

  datatype ContainerStats = ContainerStats(timestamp: int, usageCoreNanoSeconds: nat)

  /** Container: its immutable metadata, its status, its latest stats (a nil pointer is None) and whether it has IO. */
  datatype Container = Container(metadata: Metadata, status: CriContainerStart.Status, stats: Option<ContainerStats>, hasIO: bool)

  const ZeroStatus := CriContainerStart.Status(0, 0, 0, 0, 0, "", "", false, false, false)

  /** Go's zero Container{}. */
  const ZeroContainer := Container(Metadata("", "", "", "", ""), ZeroStatus, None, false)

  /** What truncindex.Get answers for an id or id prefix. */
  datatype Resolution = Resolved(id: string) | NotExist | ResolveError(err: Error)

  /** The container a resolution leads to: NotExist and a resolved id without an entry are NotFound. */
  function Lookup(containers: map<string, Container>, res: Resolution): (r: (Container, MaybeError))
    ensures r.1.None? <==> res.Resolved? && res.id in containers
    ensures r.1.None? ==> r.0 == containers[res.id]
    ensures r.1.Some? ==> r.0 == ZeroContainer
    ensures res.NotExist? ==> r.1 == Some(NotFound)
    ensures res.ResolveError? ==> r.1 == Some(res.err)
  {
    match res
    case NotExist => (ZeroContainer, Some(NotFound))
    case ResolveError(e) => (ZeroContainer, Some(e))
    case Resolved(id) => if id in containers then (containers[id], None) else (ZeroContainer, Some(NotFound))
  }

  /**
   * NewContainer: the metadata with the options applied in order; the first failing option
   * makes the result the zero Container and its error.
   */
  method NewContainer(metadata: Metadata, opts: seq<Container -> Applied<Container>>) returns (c: Container, err: MaybeError)
    ensures var a := ApplyAll(opts, Container(metadata, ZeroStatus, None, false));
      err == a.err && c == (if a.err.Some? then ZeroContainer else a.state)
  {
    var r;
    r, err := RunOpts(opts, Container(metadata, ZeroStatus, None, false));
    if err.Some? {
      return ZeroContainer, err;
    }
    return r, None;
  }

  /** The state of Store.List: seen are the ids listed so far, each once, and todo the rest. */
  ghost predicate ListInv(cs: map<string, Container>, todo: set<string>, seen: set<string>, list: seq<Container>)
  {
    && (forall id :: id in cs ==> cs[id].metadata.id == id)
    && todo + seen == cs.Keys && todo !! seen
    && |list| == |seen|
    && (forall i :: 0 <= i < |list| ==> list[i].metadata.id in seen && cs[list[i].metadata.id] == list[i])
    && (forall i, j :: 0 <= i < j < |list| ==> list[i].metadata.id != list[j].metadata.id)
  }

  lemma ListStep(cs: map<string, Container>, todo: set<string>, seen: set<string>, list: seq<Container>, id: string)
    requires ListInv(cs, todo, seen, list) && id in todo
    ensures ListInv(cs, todo - {id}, seen + {id}, list + [cs[id]])
  {
    var list' := list + [cs[id]];
    assert |seen + {id}| == |seen| + 1;
    forall i | 0 <= i < |list'|
      ensures list'[i].metadata.id in seen + {id} && cs[list'[i].metadata.id] == list'[i]
    {
      if i < |list| {
        assert list'[i] == list[i];
      }
    }
    forall i, j | 0 <= i < j < |list'|
      ensures list'[i].metadata.id != list'[j].metadata.id
    {
      assert list'[i] == list[i];
      if j < |list| {
        assert list'[j] == list[j];
      }
    }
  }

  class Store {
    var containers: map<string, Container>
    /** The ids held by the truncated-id index. */
    var ids: set<string>
    /** truncindex.Get over the indexed ids; prefix resolution is outside the model. */
    const resolve: (set<string>, string) -> Resolution

    /** Every container is stored under its own id, and the index holds exactly the stored ids. */
    ghost predicate Valid()
      reads this
    {
      (forall id :: id in containers ==> containers[id].metadata.id == id) && ids == containers.Keys
    }

    /** NewStore: an empty store. */
    constructor (resolve: (set<string>, string) -> Resolution)
      ensures Valid() && containers == map[] && ids == {} && this.resolve == resolve
    {
      containers := map[];
      ids := {};
      this.resolve := resolve;
    }

    /**
     * Add: an id already stored is AlreadyExists; otherwise the process label is reserved
     * and the id indexed (`reserveErr` and `indexErr` are what those calls return), and the
     * container is stored. Every error leaves the store unchanged.
     */
    method Add(c: Container, reserveErr: MaybeError, indexErr: MaybeError) returns (err: MaybeError)
      requires Valid()
      modifies this
      ensures Valid()
      ensures c.metadata.id in old(containers) ==> err == Some(AlreadyExists)
      ensures c.metadata.id !in old(containers) ==> err == (if reserveErr.Some? then reserveErr else indexErr)
      ensures err.Some? ==> containers == old(containers) && ids == old(ids)
      ensures err.None? ==> containers == old(containers)[c.metadata.id := c] && ids == old(ids) + {c.metadata.id}
    {
      if c.metadata.id in containers {
        return Some(AlreadyExists);
      }
      if reserveErr.Some? {
        return reserveErr;
      }
      if indexErr.Some? {
        return indexErr;
      }
      ids := ids + {c.metadata.id};
      containers := containers[c.metadata.id := c];
      return None;
    }

    /** Get: the container the id resolves to, or NotFound. */
    method Get(id: string) returns (c: Container, err: MaybeError)
      ensures (c, err) == Lookup(containers, resolve(ids, id))
    {
      var res := resolve(ids, id);
      match res {
        case NotExist =>
          return ZeroContainer, Some(NotFound);
        case ResolveError(e) =>
          return ZeroContainer, Some(e);
        case Resolved(full) =>
          if full in containers {
            return containers[full], None;
          }
          return ZeroContainer, Some(NotFound);
      }
    }

    /** List: every stored container exactly once, in no particular order. */
    method List() returns (list: seq<Container>)
      requires Valid()
      ensures |list| == |containers|
      ensures forall i :: 0 <= i < |list| ==> list[i].metadata.id in containers && containers[list[i].metadata.id] == list[i]
      ensures forall i, j :: 0 <= i < j < |list| ==> list[i].metadata.id != list[j].metadata.id
    {
      list := [];
      var cs := containers;
      var todo := cs.Keys;
      ghost var seen: set<string> := {};
      while todo != {}
        invariant ListInv(cs, todo, seen, list)
        decreases todo
      {
        var id :| id in todo;
        ListStep(cs, todo, seen, list, id);
        todo := todo - {id};
        list := list + [cs[id]];
        seen := seen + {id};
      }
    }

    /** UpdateContainerStats: replaces only the Stats of the resolved container; an unknown id changes nothing. */
    method UpdateContainerStats(id: string, stats: Option<ContainerStats>) returns (err: MaybeError)
      requires Valid()
      modifies this
      ensures Valid() && ids == old(ids)
      ensures err == Lookup(old(containers), resolve(ids, id)).1
      ensures err.Some? ==> containers == old(containers)
      ensures err.None? ==>
        var full := resolve(ids, id).id;
        containers == old(containers)[full := old(containers)[full].(stats := stats)]
    {
      var res := resolve(ids, id);
      match res {
        case NotExist =>
          return Some(NotFound);
        case ResolveError(e) =>
          return Some(e);
        case Resolved(full) =>
          if full !in containers {
            return Some(NotFound);
          }
          var c := containers[full];
          containers := containers[full := c.(stats := stats)];
          return None;
      }
    }

    /**
     * Delete: removes the resolved container and its index entry (releasing its label, not
     * modelled); an id that does not resolve is silently ignored.
     */
    method Delete(id: string)
      requires Valid()
      modifies this
      ensures Valid()
      ensures !resolve(old(ids), id).Resolved? ==> containers == old(containers) && ids == old(ids)
      ensures resolve(old(ids), id).Resolved? ==>
        containers == old(containers) - {resolve(old(ids), id).id} && ids == old(ids) - {resolve(old(ids), id).id}
    {
      var res := resolve(ids, id);
      if !res.Resolved? {
        return;
      }
      ids := ids - {res.id};
      containers := containers - {res.id};
    }
  }

  /**
   * Adding a container and then getting it by its full id returns it, for an index that
   * resolves a full id to itself.
   */
  lemma AddThenGet(containers: map<string, Container>, ids: set<string>, resolve: (set<string>, string) -> Resolution, c: Container)
    requires resolve(ids + {c.metadata.id}, c.metadata.id) == Resolved(c.metadata.id)
    ensures Lookup(containers[c.metadata.id := c], resolve(ids + {c.metadata.id}, c.metadata.id)) == (c, None)
  {
  }

  /** After a delete, an id that resolves to the deleted container finds nothing. */
  lemma DeleteThenGet(containers: map<string, Container>, id: string, res: Resolution)
    requires res.Resolved? && res.id == id
    ensures Lookup(containers - {id}, res) == (ZeroContainer, Some(NotFound))
  {
  }

  /** Updating stats leaves every other container and every other field of the updated one as it was. */
  lemma UpdateStatsIsolated(containers: map<string, Container>, full: string, stats: Option<ContainerStats>, other: string)
    requires full in containers && other in containers && other != full
    ensures var next := containers[full := containers[full].(stats := stats)];
      next[other] == containers[other] &&
      next[full].metadata == containers[full].metadata &&
      next[full].status == containers[full].status &&
      next[full].hasIO == containers[full].hasIO && next[full].stats == stats
  {
  }
}
