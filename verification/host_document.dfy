/**
 * An abstract model of the host application as the object creator sees it:
 * the active document and its objects, the active body and part of the GUI
 * view, the GuiUp flag, and a trace of the calls made into the host, from
 * which the numbers of transactions opened and committed and of generator
 * runs are read off.
 */
module HostDocument {
  import opened Wrappers

  /** The two host classes a storage object can be created as. */
  datatype Kind = PartFeaturePython | PartDesignFeaturePython

  function TypeName(k: Kind): string
  {
    match k
    case PartFeaturePython => "Part::FeaturePython"
    case PartDesignFeaturePython => "PartDesign::FeaturePython"
  }

  /** A document object; `id` is its position in the document, which makes every new object fresh. */
  datatype FeatureObject = FeatureObject(id: nat, name: string, kind: Kind)

  /** A PartDesign body or an App::Part, with its ordered member list. */
  datatype Container = Container(name: string, members: seq<FeatureObject>)

  /** `doc.getObject(name)`: the first object of that name, or None. */
  function GetObject(objects: seq<FeatureObject>, name: string): (r: Option<FeatureObject>)
    ensures r.None? <==> forall o :: o in objects ==> o.name != name
    ensures r.Some? ==> exists i :: 0 <= i < |objects| && objects[i] == r.value
                                   && r.value.name == name
                                   && forall j :: 0 <= j < i ==> objects[j].name != name
  {
    if objects == [] then None
    else if objects[0].name == name then Some(objects[0])
    else
      var r := GetObject(objects[1..], name);
      assert r.Some? ==> exists i :: 0 <= i < |objects| && objects[i] == r.value
                                     && forall j :: 0 <= j < i ==> objects[j].name != name
      by {
        if r.Some? {
          var i :| 0 <= i < |objects[1..]| && objects[1..][i] == r.value
                   && forall j :: 0 <= j < i ==> objects[1..][j].name != name;
          assert objects[i + 1] == r.value;
        }
      }
      r
  }

  /** The calls the object creator makes into the host, in the order made. */
  datatype Event =
    | DocumentCreated
    | TransactionOpened(title: string)
    | ObjectAdded(obj: FeatureObject)
    | ViewProviderAttached(target: nat, icon: string)
    | GeneratorRan(target: nat)
    | AddedToBody(target: nat)
    | AppendedToPart(target: nat)
    | TransactionCommitted

  datatype Tag = NewDoc | Open | Add | Attach | Run | ToBody | ToPart | Commit

  function TagOf(e: Event): Tag
  {
    match e
    case DocumentCreated => NewDoc
    case TransactionOpened(_) => Open
    case ObjectAdded(_) => Add
    case ViewProviderAttached(_, _) => Attach
    case GeneratorRan(_) => Run
    case AddedToBody(_) => ToBody
    case AppendedToPart(_) => ToPart
    case TransactionCommitted => Commit
  }

  /** The number of events of kind `t` in `s`. */
  function Count(s: seq<Event>, t: Tag): nat
  {
    if s == [] then 0 else (if TagOf(s[0]) == t then 1 else 0) + Count(s[1..], t)
  }

  lemma {:induction false} CountAppend(a: seq<Event>, b: seq<Event>, t: Tag)
    ensures Count(a + b, t) == Count(a, t) + Count(b, t)
  {
    if a != [] {
      assert (a + b)[1..] == a[1..] + b;
      CountAppend(a[1..], b, t);
    } else {
      assert a + b == b;
    }
  }

  /** 1 when `x` is of kind `t`, else 0. */
  function Occurs(x: Event, t: Tag): nat
  {
    if TagOf(x) == t then 1 else 0
  }

  /** The count of a sequence of at most four events, element by element. */
  lemma CountSmall(s: seq<Event>, t: Tag)
    requires |s| <= 4
    ensures Count(s, t) == if s == [] then 0 else Occurs(s[0], t) + Count(s[1..], t)
    ensures |s| == 1 ==> Count(s, t) == Occurs(s[0], t)
    ensures |s| == 2 ==> Count(s, t) == Occurs(s[0], t) + Occurs(s[1], t)
    ensures |s| == 3 ==> Count(s, t) == Occurs(s[0], t) + Occurs(s[1], t) + Occurs(s[2], t)
  {
    if |s| >= 2 { assert s[1..][1..] == s[2..]; }
    if |s| >= 3 { assert s[2..][1..] == s[3..]; }
    if |s| >= 4 { assert s[3..][1..] == s[4..]; }
  }

  /** Of a kind counted at most once, there is at most one position. */
  lemma {:induction false} CountAtMostOneUnique(s: seq<Event>, t: Tag, i: nat, j: nat)
    requires Count(s, t) <= 1
    requires i < |s| && j < |s| && TagOf(s[i]) == t && TagOf(s[j]) == t
    ensures i == j
  {
    if i > 0 && j > 0 {
      CountAtMostOneUnique(s[1..], t, i - 1, j - 1);
    } else if i > 0 || j > 0 {
      var k := if i > 0 then i else j;
      CountPositive(s[1..], t);
    }
  }

  /** A count is positive exactly when an event of that kind occurs. */
  lemma {:induction false} CountPositive(s: seq<Event>, t: Tag)
    ensures Count(s, t) > 0 <==> exists i :: 0 <= i < |s| && TagOf(s[i]) == t
  {
    if s != [] {
      CountPositive(s[1..], t);
      if exists i :: 0 <= i < |s[1..]| && TagOf(s[1..][i]) == t {
        var i :| 0 <= i < |s[1..]| && TagOf(s[1..][i]) == t;
        assert TagOf(s[i + 1]) == t;
      }
      if exists i :: 0 <= i < |s| && TagOf(s[i]) == t {
        var i :| 0 <= i < |s| && TagOf(s[i]) == t;
        if i > 0 { assert TagOf(s[1..][i - 1]) == t; }
      }
    }
  }

  /** Without a document there are no objects and no active containers; every
      object's id is its position; containers hold only document objects. */
  ghost predicate WellFormed(hasDocument: bool, objects: seq<FeatureObject>,
                             body: Option<Container>, part: Option<Container>)
  {
    (!hasDocument ==> objects == [] && body == None && part == None)
    && (forall i :: 0 <= i < |objects| ==> objects[i].id == i)
    && (body.Some? ==> forall o :: o in body.value.members ==> o in objects)
    && (part.Some? ==> forall o :: o in part.value.members ==> o in objects)
  }

  class Host {
    /** `FreeCAD.GuiUp`: fixed for the session. */
    const guiUp: bool
    /** Whether `FreeCAD.ActiveDocument` is set. */
    var hasDocument: bool
    /** The objects of the active document, in creation order. */
    var objects: seq<FeatureObject>
    /** `getActiveObject("pdbody")` and `getActiveObject("part")` of the active view. */
    var body: Option<Container>
    var part: Option<Container>
    /** Every call made into the host so far. */
    var trace: seq<Event>

    ghost predicate Valid()
      reads this
    {
      WellFormed(hasDocument, objects, body, part)
    }

    constructor (guiUp: bool, hasDocument: bool, objects: seq<FeatureObject>,
                 body: Option<Container>, part: Option<Container>)
      ensures this.guiUp == guiUp && this.hasDocument == hasDocument && this.objects == objects
      ensures this.body == body && this.part == part && trace == []
    {
      this.guiUp := guiUp;
      this.hasDocument := hasDocument;
      this.objects := objects;
      this.body := body;
      this.part := part;
      trace := [];
    }

    /** The number of transactions opened so far. */
    function Opens(): nat
      reads this
    {
      Count(trace, Open)
    }

    /** The number of transactions committed so far. */
    function Commits(): nat
      reads this
    {
      Count(trace, Commit)
    }

    /** `FreeCAD.newDocument()`: a new, empty document becomes active, with no active body or part. */
    method NewDocument()
      modifies this`hasDocument, this`objects, this`body, this`part, this`trace
      ensures hasDocument && objects == [] && body == None && part == None
      ensures trace == old(trace) + [DocumentCreated]
    {
      hasDocument, objects, body, part := true, [], None, None;
      trace := trace + [DocumentCreated];
    }

    /** `doc.openTransaction(title)`. */
    method OpenTransaction(title: string)
      modifies this`trace
      ensures trace == old(trace) + [TransactionOpened(title)]
    {
      trace := trace + [TransactionOpened(title)];
    }

    /** `doc.addObject(type, name)`: a fresh object joins the end of the document. */
    method AddObject(kind: Kind, name: string) returns (obj: FeatureObject)
      requires hasDocument
      modifies this`objects, this`trace
      ensures obj == FeatureObject(|old(objects)|, name, kind)
      ensures objects == old(objects) + [obj]
      ensures trace == old(trace) + [ObjectAdded(obj)]
    {
      obj := FeatureObject(|objects|, name, kind);
      objects := objects + [obj];
      trace := trace + [ObjectAdded(obj)];
    }

    /** `ViewProvider(obj.ViewObject, icon)`: a proxy is bound to the object's view. */
    method AttachViewProvider(obj: FeatureObject, icon: string)
      modifies this`trace
      ensures trace == old(trace) + [ViewProviderAttached(obj.id, icon)]
    {
      trace := trace + [ViewProviderAttached(obj.id, icon)];
    }

    /** `FREEGRID_FUNCTION(obj)`: the geometry generator, opaque here, is only recorded. */
    method RunGenerator(obj: FeatureObject)
      modifies this`trace
      ensures trace == old(trace) + [GeneratorRan(obj.id)]
    {
      trace := trace + [GeneratorRan(obj.id)];
    }

    /** `body.addObject(obj)`. */
    method BodyAddObject(obj: FeatureObject)
      requires body.Some?
      modifies this`body, this`trace
      ensures body == Some(old(body).value.(members := old(body).value.members + [obj]))
      ensures trace == old(trace) + [AddedToBody(obj.id)]
    {
      body := Some(body.value.(members := body.value.members + [obj]));
      trace := trace + [AddedToBody(obj.id)];
    }

    /** `part.Group += [obj]`. */
    method PartAppend(obj: FeatureObject)
      requires part.Some?
      modifies this`part, this`trace
      ensures part == Some(old(part).value.(members := old(part).value.members + [obj]))
      ensures trace == old(trace) + [AppendedToPart(obj.id)]
    {
      part := Some(part.value.(members := part.value.members + [obj]));
      trace := trace + [AppendedToPart(obj.id)];
    }

    /** `doc.commitTransaction()`. */
    method CommitTransaction()
      modifies this`trace
      ensures trace == old(trace) + [TransactionCommitted]
    {
      trace := trace + [TransactionCommitted];
    }
  }
}
