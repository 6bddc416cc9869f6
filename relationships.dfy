/**
  `BulkOps::Relationship`: a pending link between a row's work and another
  repository object. Creating one tries to resolve it at once; resolving
  looks the target up by its addressing scheme and applies the link to the
  objects' member lists, or leaves the record pending.
 */
module Relationships {
  import opened Text
  import opened BulkOps

  /** The columns a `bulk_ops_relationships` record is created with; the
      object identifier is stored as text (nil is `None`). */
  datatype Params = Params(
    workProxyId: int,
    identifierType: Option<string>,
    relationshipType: string,
    objectIdentifier: Option<string>,
    previousSibling: Option<int>,
    status: string
  )

  /** A repository object (a work or a collection) with its member lists,
      held as the members' ids. */
  class Work {
    const id: string
    const title: seq<string>
    var orderedMembers: seq<string>
    var memberIds: seq<string>

    constructor (id: string, title: seq<string>)
      ensures this.id == id && this.title == title
      ensures orderedMembers == [] && memberIds == []
    {
      this.id := id;
      this.title := title;
      orderedMembers := [];
      memberIds := [];
    }
  }

  /** `ActiveFedora::Base.find(id)`: the object, `Ldp::Gone` for a deleted
      one, or `ObjectNotFoundError`. */
  datatype Fetch = Found(work: Work) | Gone | Missing

  /** The repository and index a relationship consults. */
  datatype Repository = Repository(
    fetch: string -> Fetch,
    /** a Solr document has this title */
    hasTitle: string -> bool,
    /** the id of the first Solr document with this identifier */
    identifierDoc: string -> Option<string>,
    /** the `work_id` of the proxy of operation `op` at row `r`, when there is such a proxy with a work */
    proxyWorkId: (int, int) -> Option<string>,
    /** the id `Collection.create(title: [t])` receives */
    newCollectionId: string -> string,
    /** every object `fetch` can return */
    works: set<Work>
  )

  ghost predicate Valid(repo: Repository) {
    forall id :: repo.fetch(id).Found? ==> repo.fetch(id).work in repo.works
  }

  /** The outcome of `findObject`: an object, a collection to create, no
      object (`false` or nil), or an exception. */
  datatype Lookup = Hit(work: Work) | CreateCollection(title: string) | NoObject | Raises

  /** `object_identifier` as Ruby interpolates or converts it: nil reads as "". */
  function ObjectText(p: Params): string {
    if p.objectIdentifier.Some? then p.objectIdentifier.value else ""
  }

  /** The proxy row a `row` reference names: `object_identifier.to_i - 2`. */
  function ReferencedRow(p: Params): int {
    ToI(ObjectText(p)) - 2
  }

  /** A lookup that lets `find` raise. */
  function FetchOrRaise(repo: Repository, id: string): (r: Lookup)
    ensures r.Hit? <==> repo.fetch(id).Found?
    ensures r.Hit? ==> r.work == repo.fetch(id).work
    ensures !r.Hit? ==> r == Raises
  {
    if repo.fetch(id).Found? then Hit(repo.fetch(id).work) else Raises
  }

  /** `findObject`, branch by branch on the identifier type. */
  function FindObjectSpec(repo: Repository, operationId: int, p: Params): (r: Lookup)
    ensures Valid(repo) && r.Hit? ==> r.work in repo.works
    ensures r.CreateCollection? <==>
              p.identifierType == Some("title") && !repo.hasTitle(ObjectText(p)) &&
              Lower(p.relationshipType) == "collection"
    ensures r.CreateCollection? ==> r.title == ObjectText(p)
    ensures p.identifierType == Some("id") ==>
              (r == NoObject <==> repo.fetch(ObjectText(p)).Gone?) && (r.Hit? <==> repo.fetch(ObjectText(p)).Found?)
    ensures p.identifierType == Some("row") ==>
              (r.Hit? <==> repo.proxyWorkId(operationId, ReferencedRow(p)).Some? &&
                           repo.fetch(repo.proxyWorkId(operationId, ReferencedRow(p)).value).Found?) &&
              r != NoObject
    ensures p.identifierType !in [Some("id"), Some("title"), Some("identifier"), Some("row")] ==> r == NoObject
  {
    var oi := ObjectText(p);
    if p.identifierType == Some("id") then
      match repo.fetch(oi)
      case Found(w) => Hit(w)
      case Gone => NoObject
      case Missing => Raises
    else if p.identifierType == Some("title") then
      // a matching document reaches `objects.first["id"]` on a hash, which raises
      if repo.hasTitle(oi) then Raises
      else if Lower(p.relationshipType) == "collection" then CreateCollection(oi)
      else NoObject
    else if p.identifierType == Some("identifier") then
      match repo.identifierDoc(oi)
      case None => NoObject
      case Some(doc) => FetchOrRaise(repo, doc)
    else if p.identifierType == Some("row") then
      match repo.proxyWorkId(operationId, ReferencedRow(p))
      case None => Raises
      case Some(wid) => FetchOrRaise(repo, wid)
    else NoObject
  }

  /** `work_proxy.work`: any failure of `find` reads as no work. */
  function SubjectOf(repo: Repository, workId: Option<string>): (r: Option<Work>)
    ensures r.Some? <==> workId.Some? && repo.fetch(workId.value).Found?
    ensures Valid(repo) && r.Some? ==> r.value in repo.works
  {
    if workId.Some? && repo.fetch(workId.value).Found? then Some(repo.fetch(workId.value).work) else None
  }

  /** `implement_relationship!` on the member lists: `parent` appends the
      subject to the object's ordered members, `child` the object to the
      subject's, `collection` adds the subject to the object's members, and
      every other type changes nothing. */
  twostate predicate Implemented(kind: string, s: Work, o: Work)
    reads s, o
  {
    (kind == "parent" ==>
       o.orderedMembers == old(o.orderedMembers) + [s.id] && o.memberIds == old(o.memberIds) &&
       (s != o ==> s.orderedMembers == old(s.orderedMembers) && s.memberIds == old(s.memberIds))) &&
    (kind == "child" ==>
       s.orderedMembers == old(s.orderedMembers) + [o.id] && s.memberIds == old(s.memberIds) &&
       (s != o ==> o.orderedMembers == old(o.orderedMembers) && o.memberIds == old(o.memberIds))) &&
    (kind == "collection" ==>
       o.memberIds == old(o.memberIds) + [s.id] && o.orderedMembers == old(o.orderedMembers) &&
       (s != o ==> s.orderedMembers == old(s.orderedMembers) && s.memberIds == old(s.memberIds))) &&
    (kind !in ["parent", "child", "collection"] ==>
       o.orderedMembers == old(o.orderedMembers) && o.memberIds == old(o.memberIds) &&
       s.orderedMembers == old(s.orderedMembers) && s.memberIds == old(s.memberIds))
  }

  /** `implement_relationship!` with an object created by the lookup
      itself: its lists start empty. */
  twostate predicate ImplementedOnNew(kind: string, s: Work, new o: Work)
    reads s, o
  {
    o.orderedMembers == (if kind == "parent" then [s.id] else []) &&
    o.memberIds == (if kind == "collection" then [s.id] else []) &&
    s.orderedMembers == old(s.orderedMembers) + (if kind == "child" then [o.id] else []) &&
    s.memberIds == old(s.memberIds)
  }

  class Relationship {
    const params: Params
    var status: string

    constructor (params: Params)
      ensures this.params == params && status == params.status
    {
      this.params := params;
      status := params.status;
    }

    /** `findObject`; a `title` reference with no match that names a
        collection creates that collection. */
    method FindObject(repo: Repository, operationId: int) returns (r: Lookup)
      ensures var s := FindObjectSpec(repo, operationId, params);
        (s.CreateCollection? ==>
           r.Hit? && fresh(r.work) && r.work.id == repo.newCollectionId(s.title) && r.work.title == [s.title] &&
           r.work.orderedMembers == [] && r.work.memberIds == []) &&
        (!s.CreateCollection? ==> r == s)
    {
      r := FindObjectSpec(repo, operationId, params);
      if r.CreateCollection? {
        var c := new Work(repo.newCollectionId(r.title), [r.title]);
        r := Hit(c);
      }
    }

    /** `implement_relationship!`, which marks the record complete whatever
        the type. */
    method Implement(kind: string, s: Work, o: Work)
      modifies this, s, o
      ensures Implemented(kind, s, o)
      ensures status == "complete"
    {
      if kind == "parent" {
        o.orderedMembers := o.orderedMembers + [s.id];
      } else if kind == "child" {
        s.orderedMembers := s.orderedMembers + [o.id];
      } else if kind == "collection" {
        o.memberIds := o.memberIds + [s.id];
      }
      status := "complete";
    }

    /** `resolve!` for the proxy's work id: pending (and nothing else
        changes) when the subject or the object is missing, otherwise the
        link is applied and the record is complete; an exception of the
        lookup leaves everything as it was. There is no guard against
        resolving a record twice. */
    method Resolve(repo: Repository, operationId: int, subjectWorkId: Option<string>)
      returns (raised: bool, target: Option<Work>)
      requires Valid(repo)
      modifies this, repo.works
      ensures var subj := SubjectOf(repo, subjectWorkId);
        var s := FindObjectSpec(repo, operationId, params);
        (subj.None? || s.NoObject? ==> !raised && status == "pending" && unchanged(repo.works)) &&
        (subj.Some? && s.Raises? ==> raised && status == old(status) && unchanged(repo.works)) &&
        (subj.Some? && (s.Hit? || s.CreateCollection?) ==>
           !raised && status == "complete" && target.Some? &&
           (s.Hit? ==> target.value == s.work && Implemented(params.relationshipType, subj.value, s.work)) &&
           (s.CreateCollection? ==>
              fresh(target.value) && target.value.title == [s.title] &&
              ImplementedOnNew(params.relationshipType, subj.value, target.value)))
    {
      raised, target := false, None;
      var subj := SubjectOf(repo, subjectWorkId);
      if subj.None? {
        Wait();
        return;
      }
      var found := FindObject(repo, operationId);
      if found.Raises? {
        raised := true;
        return;
      }
      if !found.Hit? {
        Wait();
        return;
      }
      target := Some(found.work);
      Implement(params.relationshipType, subj.value, found.work);
    }

    /** `fail!` */
    method Fail()
      modifies this
      ensures status == "failed"
    {
      status := "failed";
    }

    /** `wait!` */
    method Wait()
      modifies this
      ensures status == "pending"
    {
      status := "pending";
    }
  }

  /** Resolving a new record raises exactly when its subject exists and
      the lookup of its object raises. */
  predicate CreateRaises(repo: Repository, operationId: int, subjectWorkId: Option<string>, params: Params) {
    SubjectOf(repo, subjectWorkId).Some? && FindObjectSpec(repo, operationId, params).Raises?
  }

  /** `Relationship.create(params)`: the record is built and resolved at
      once, so a new record is already pending or complete unless the
      lookup raised. */
  method Create(repo: Repository, operationId: int, subjectWorkId: Option<string>, params: Params)
    returns (rel: Relationship, raised: bool)
    requires Valid(repo)
    modifies repo.works
    ensures fresh(rel) && rel.params == params
    ensures raised <==> CreateRaises(repo, operationId, subjectWorkId, params)
    ensures raised ==> rel.status == params.status
    ensures !raised ==> rel.status in ["pending", "complete"]
    ensures !raised ==>
              (rel.status == "complete" <==>
               SubjectOf(repo, subjectWorkId).Some? &&
               (FindObjectSpec(repo, operationId, params).Hit? || FindObjectSpec(repo, operationId, params).CreateCollection?))
  {
    rel := new Relationship(params);
    var target;
    raised, target := rel.Resolve(repo, operationId, subjectWorkId);
  }

  /** A positive `row:N` cell is turned into `N - 2` by the parser, and the
      lookup subtracts 2 again: the record resolves to the proxy of data
      row `N - 4`. */
  lemma RowReferenceOffsetTwice(p: Params, n: int)
    requires n > 0 && p.objectIdentifier == Some(IntToString(n - ROW_OFFSET))
    ensures ReferencedRow(p) == n - 2 * ROW_OFFSET
  {
    IntToStringToI(n - ROW_OFFSET);
  }
}
