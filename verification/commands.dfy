/**
 * The workbench commands: their metadata (`IsActive`, the tooltip with an
 * icon, `GetResources`) and `create`, which makes a storage object inside one
 * transaction, attaches a view provider, runs the geometry generator and puts
 * the object into the active body or part.
 */
module Commands {
  import opened Wrappers
  import opened Strings
  import opened HostDocument

  /** A command class: the object commands have a NAME and a generator; the sketch command has neither. */
  datatype Command =
    | ObjectCommand(name: string, pixmap: string, menuText: string, toolTip: string)
    | SketchCommand(pixmap: string, menuText: string, toolTip: string)

  const StorageBox: Command := ObjectCommand("StorageBox", "box.svg", "Storage box", "Create a storage box")
  const StorageGrid: Command := ObjectCommand("StorageGrid", "grid.svg", "Storage grid", "Create a storage grid")
  const CreateSketch: Command := SketchCommand("sketch.svg", "Sketch", "Generate inner box profile")

  const DefaultIconSize: int := 125

  /** `IsActive()`: a command is enabled exactly when a document is active;
      while it is disabled the session holds no objects and no body or part
      to put one into. */
  predicate IsActive(app: Host)
    reads app
    ensures !IsActive(app) && app.Valid() ==> app.objects == [] && app.body.None? && app.part.None?
  {
    app.hasDocument
  }

  /** `toolTipWithIcon(icon_size)`: an HTML fragment with the icon at the left
      and the tool tip centred, laid out as `LaidOut` describes with the icon's
      path as source and `str(icon_size)` as width and as height. */
  function ToolTipWithIcon(cmd: Command, iconPath: string, iconSize: int := DefaultIconSize): (html: string)
    ensures LaidOut(html, PathJoin(iconPath, cmd.pixmap), IntToString(iconSize), cmd.toolTip)
  {
    var src := PathJoin(iconPath, cmd.pixmap);
    var digits := IntToString(iconSize);
    FragmentFields(src, digits, cmd.toolTip);
    Fragment(src, digits, cmd.toolTip)
  }

  /** Read left to right, `html` is an image tag with source `src` and the
      numeral `digits` as width and as height, then `tip` inside a centred div. */
  predicate LaidOut(html: string, src: string, digits: string, tip: string)
  {
    var w := 9 + |src| + 19;
    var h := w + |digits| + 10;
    var t := h + |digits| + 37;
    |html| == t + |tip| + 6
    && html[..9] == "<img src=" && html[9..9 + |src|] == src
    && html[9 + |src|..w] == " align=left width='" && html[w..w + |digits|] == digits
    && html[w + |digits|..h] == "' height='" && html[h..h + |digits|] == digits
    && html[h + |digits|..h + |digits| + 19] == "' type='svg/xml' />"
    && html[h + |digits| + 19..t] == "<div align=center>"
    && html[t..t + |tip|] == tip && html[t + |tip|..] == "</div>"
  }

  /** The tool-tip fragment for a given icon source, size digits and tool tip. */
  function Fragment(src: string, digits: string, tip: string): string
  {
    "<img src=" + src + " align=left width='" + digits + "' height='" + digits
    + "' type='svg/xml' />" + "<div align=center>" + tip + "</div>"
  }

  /** The fragment is laid out piece by piece. */
  lemma FragmentFields(src: string, digits: string, tip: string)
    ensures LaidOut(Fragment(src, digits, tip), src, digits, tip)
  {
    Layout("<img src=", src, " align=left width='", digits, "' height='",
           "' type='svg/xml' />", "<div align=center>", tip, "</div>");
  }

  /** The offsets of the pieces of a nine-piece concatenation in which the
      fourth piece is repeated as the sixth. */
  lemma Layout(a: string, src: string, b: string, digits: string, c: string,
                     d: string, e: string, tip: string, f: string)
    ensures var html := a + src + b + digits + c + digits + d + e + tip + f;
            var s := |a| + |src|;
            var w := s + |b|;
            var h := w + |digits| + |c|;
            var t := h + |digits| + |d| + |e|;
            |html| == t + |tip| + |f|
            && html[..|a|] == a && html[|a|..s] == src && html[s..w] == b
            && html[w..w + |digits|] == digits && html[w + |digits|..h] == c
            && html[h..h + |digits|] == digits && html[h + |digits|..h + |digits| + |d|] == d
            && html[h + |digits| + |d|..t] == e && html[t..t + |tip|] == tip
            && html[t + |tip|..] == f
  {
    LayoutFront(a, src, b, digits, c, d, e, tip, f);
    LayoutMiddle(a, src, b, digits, c, d, e, tip, f);
    LayoutBack(a, src, b, digits, c, d, e, tip, f);
  }

  /** A slice within `a + src + b + digits` is unchanged by what follows. */
  lemma LayoutInFront(a: string, src: string, b: string, digits: string, c: string,
                     d: string, e: string, tip: string, f: string, i: nat, j: nat)
    requires i <= j <= |a + src + b + digits|
    ensures (a + src + b + digits + c + digits + d + e + tip + f)[i..j] == (a + src + b + digits)[i..j]
  {
    var p3 := a + src + b + digits;
    var p5 := p3 + c + digits;
    var p7 := p5 + d + e + tip;
    PrefixSlice(p7, f, i, j);
    PrefixSlice(p5 + d + e, tip, i, j);
    PrefixSlice(p5 + d, e, i, j);
    PrefixSlice(p5, d, i, j);
    PrefixSlice(p3 + c, digits, i, j);
    PrefixSlice(p3, c, i, j);
  }

  /** A slice within `a + src + b + digits + c + digits` is unchanged by what follows. */
  lemma LayoutInMiddle(a: string, src: string, b: string, digits: string, c: string,
                     d: string, e: string, tip: string, f: string, i: nat, j: nat)
    requires i <= j <= |a + src + b + digits + c + digits|
    ensures (a + src + b + digits + c + digits + d + e + tip + f)[i..j] == (a + src + b + digits + c + digits)[i..j]
  {
    var p5 := a + src + b + digits + c + digits;
    var p7 := p5 + d + e + tip;
    PrefixSlice(p7, f, i, j);
    PrefixSlice(p5 + d + e, tip, i, j);
    PrefixSlice(p5 + d, e, i, j);
    PrefixSlice(p5, d, i, j);
  }

  lemma LayoutFront(a: string, src: string, b: string, digits: string, c: string,
                     d: string, e: string, tip: string, f: string)
    ensures var html := a + src + b + digits + c + digits + d + e + tip + f;
            var s := |a| + |src|;
            var w := s + |b|;
            html[..|a|] == a && html[|a|..s] == src && html[s..w] == b && html[w..w + |digits|] == digits
  {
    var s := |a| + |src|;
    var w := s + |b|;
    LayoutInFront(a, src, b, digits, c, d, e, tip, f, 0, |a|);
    LayoutInFront(a, src, b, digits, c, d, e, tip, f, |a|, s);
    LayoutInFront(a, src, b, digits, c, d, e, tip, f, s, w);
    LayoutInFront(a, src, b, digits, c, d, e, tip, f, w, w + |digits|);
    PrefixSlice(a + src + b, digits, 0, |a|);
    PrefixSlice(a + src, b, 0, |a|);
    PrefixSlice(a, src, 0, |a|);
    PrefixSlice(a + src + b, digits, |a|, s);
    PrefixSlice(a + src, b, |a|, s);
    PrefixSlice(a, src, |a|, s);
    PrefixSlice(a + src + b, digits, s, w);
    PrefixSlice(a + src, b, s, w);
    PrefixSlice(a + src + b, digits, w, w + |digits|);
  }

  lemma LayoutMiddle(a: string, src: string, b: string, digits: string, c: string,
                     d: string, e: string, tip: string, f: string)
    ensures var html := a + src + b + digits + c + digits + d + e + tip + f;
            var w := |a| + |src| + |b|;
            var h := w + |digits| + |c|;
            html[w + |digits|..h] == c && html[h..h + |digits|] == digits
  {
    var p3 := a + src + b + digits;
    var h := |p3| + |c|;
    LayoutInMiddle(a, src, b, digits, c, d, e, tip, f, |p3|, h);
    LayoutInMiddle(a, src, b, digits, c, d, e, tip, f, h, h + |digits|);
    PrefixSlice(p3 + c, digits, |p3|, h);
    PrefixSlice(p3, c, |p3|, h);
    PrefixSlice(p3 + c, digits, h, h + |digits|);
  }

  lemma LayoutBack(a: string, src: string, b: string, digits: string, c: string,
                     d: string, e: string, tip: string, f: string)
    ensures var html := a + src + b + digits + c + digits + d + e + tip + f;
            var t := |html| - |f| - |tip|;
            var m := t - |e|;
            html[m - |d|..m] == d && html[m..t] == e && html[t..t + |tip|] == tip && html[t + |tip|..] == f
  {
    var p5 := a + src + b + digits + c + digits;
    var p7 := p5 + d + e + tip;
    var m := |p5| + |d|;
    var t := m + |e|;
    PrefixSlice(p7, f, |p5|, m);
    PrefixSlice(p5 + d + e, tip, |p5|, m);
    PrefixSlice(p5 + d, e, |p5|, m);
    PrefixSlice(p5, d, |p5|, m);
    PrefixSlice(p7, f, m, t);
    PrefixSlice(p5 + d + e, tip, m, t);
    PrefixSlice(p5 + d, e, m, t);
    PrefixSlice(p7, f, t, |p7|);
    PrefixSlice(p5 + d + e, tip, t, |p7|);
    PrefixSlice(p7, f, |p7|, |p7| + |f|);
  }

  /** A slice of a concatenation that lies within the left part, or is exactly
      the right part. */
  lemma PrefixSlice(x: string, y: string, i: nat, j: nat)
    requires i <= j <= |x| || (i == |x| && j == |x| + |y|)
    ensures (x + y)[i..j] == if j <= |x| then x[i..j] else y
  {
  }

  /** The width and the height of the icon read back as the icon size: the
      numeral laid out in both fields is a non-empty string of decimal digits,
      without a leading zero, whose value is `icon_size`. */
  lemma ToolTipFields(cmd: Command, iconPath: string, iconSize: nat)
    ensures var digits := IntToString(iconSize);
            LaidOut(ToolTipWithIcon(cmd, iconPath, iconSize), PathJoin(iconPath, cmd.pixmap), digits, cmd.toolTip)
            && AllDigits(digits) && DigitsValue(digits) == iconSize
            && 0 < |digits| && (iconSize > 0 ==> digits[0] != '0')
  {
    NatToStringRoundTrip(iconSize);
  }

  /** `GetResources()`: the icon, the menu text and the tool tip with its icon at the default size. */
  function GetResources(cmd: Command, iconPath: string): (r: map<string, string>)
    ensures r.Keys == {"Pixmap", "MenuText", "ToolTip"}
    ensures r["Pixmap"] == cmd.pixmap && r["MenuText"] == cmd.menuText
    ensures r["ToolTip"] == ToolTipWithIcon(cmd, iconPath, DefaultIconSize)
  {
    map["Pixmap" := cmd.pixmap, "MenuText" := cmd.menuText, "ToolTip" := ToolTipWithIcon(cmd, iconPath)]
  }

  /** The undo-step title `"Create {}".format(NAME)` (untranslated). */
  function TransactionTitle(name: string): (t: string)
    ensures |t| == 7 + |name| && t[..7] == "Create " && t[7..] == name
  {
    "Create " + name
  }

  /** Which container a new object goes into. */
  datatype ContainerContext = InBody | InPart | NoContainer

  /** The context resolver: a body wins over a part, and without a GUI there is no container. */
  function ResolveContext(guiUp: bool, body: Option<Container>, part: Option<Container>): (ctx: ContainerContext)
    ensures ctx == InBody <==> guiUp && body.Some?
    ensures ctx == InPart <==> guiUp && body.None? && part.Some?
    ensures ctx == NoContainer <==> !guiUp || (body.None? && part.None?)
  {
    if !guiUp then NoContainer
    else if body.Some? then InBody
    else if part.Some? then InPart
    else NoContainer
  }

  /** The host class of the new object: a PartDesign feature only inside a body. */
  function KindFor(ctx: ContainerContext): (k: Kind)
    ensures k == PartDesignFeaturePython <==> ctx == InBody
    ensures TypeName(k) == if ctx == InBody then "PartDesign::FeaturePython" else "Part::FeaturePython"
  {
    if ctx == InBody then PartDesignFeaturePython else PartFeaturePython
  }

  /** What `create` does between adding the object and committing. */
  function Middle(cmd: Command, guiUp: bool, ctx: ContainerContext, obj: FeatureObject): seq<Event>
    requires cmd.ObjectCommand?
  {
    if guiUp then
      [ViewProviderAttached(obj.id, cmd.pixmap), GeneratorRan(obj.id)]
      + (match ctx
         case InBody => [AddedToBody(obj.id)]
         case InPart => [AppendedToPart(obj.id)]
         case NoContainer => [])
    else [GeneratorRan(obj.id)]
  }

  /** The calls `create` makes into the host, for a new object `obj`. */
  function CreateEvents(newDoc: bool, cmd: Command, guiUp: bool, ctx: ContainerContext,
                        obj: FeatureObject): seq<Event>
    requires cmd.ObjectCommand?
  {
    (if newDoc then [DocumentCreated] else [])
    + [TransactionOpened(TransactionTitle(cmd.name)), ObjectAdded(obj)]
    + Middle(cmd, guiUp, ctx, obj)
    + [TransactionCommitted]
  }

  /** `trace` extended by the calls of `create` one at a time, in the order made. */
  function ExtendedByCreate(trace: seq<Event>, newDoc: bool, cmd: Command, guiUp: bool,
                            ctx: ContainerContext, obj: FeatureObject): seq<Event>
    requires cmd.ObjectCommand?
  {
    var t1 := if newDoc then trace + [DocumentCreated] else trace;
    var t2 := t1 + [TransactionOpened(TransactionTitle(cmd.name))] + [ObjectAdded(obj)];
    var t3 := if guiUp then
                var g := t2 + [ViewProviderAttached(obj.id, cmd.pixmap)] + [GeneratorRan(obj.id)];
                match ctx
                case InBody => g + [AddedToBody(obj.id)]
                case InPart => g + [AppendedToPart(obj.id)]
                case NoContainer => g
              else t2 + [GeneratorRan(obj.id)];
    t3 + [TransactionCommitted]
  }

  lemma ExtendedByCreateSplit(trace: seq<Event>, newDoc: bool, cmd: Command, guiUp: bool,
                              ctx: ContainerContext, obj: FeatureObject)
    requires cmd.ObjectCommand?
    ensures ExtendedByCreate(trace, newDoc, cmd, guiUp, ctx, obj) == trace + CreateEvents(newDoc, cmd, guiUp, ctx, obj)
  {
  }

  /** How many events of each kind `create` makes. */
  lemma CreateEventCounts(newDoc: bool, cmd: Command, guiUp: bool, ctx: ContainerContext,
                          obj: FeatureObject, t: Tag)
    requires cmd.ObjectCommand?
    ensures Count(CreateEvents(newDoc, cmd, guiUp, ctx, obj), t) ==
      (if newDoc then Occurs(DocumentCreated, t) else 0)
      + Occurs(TransactionOpened(TransactionTitle(cmd.name)), t) + Occurs(ObjectAdded(obj), t)
      + (if guiUp then
           Occurs(ViewProviderAttached(obj.id, cmd.pixmap), t) + Occurs(GeneratorRan(obj.id), t)
           + (match ctx
              case InBody => Occurs(AddedToBody(obj.id), t)
              case InPart => Occurs(AppendedToPart(obj.id), t)
              case NoContainer => 0)
         else Occurs(GeneratorRan(obj.id), t))
      + Occurs(TransactionCommitted, t)
  {
    var pre: seq<Event> := if newDoc then [DocumentCreated] else [];
    var head := [TransactionOpened(TransactionTitle(cmd.name)), ObjectAdded(obj)];
    var mid := Middle(cmd, guiUp, ctx, obj);
    var tail := [TransactionCommitted];
    assert CreateEvents(newDoc, cmd, guiUp, ctx, obj) == pre + head + mid + tail;
    CountAppend(pre + head + mid, tail, t);
    CountAppend(pre + head, mid, t);
    CountAppend(pre, head, t);
    CountSmall(pre, t);
    CountSmall(head, t);
    MiddleCount(cmd, guiUp, ctx, obj, t);
    CountSmall(tail, t);
  }

  lemma MiddleCount(cmd: Command, guiUp: bool, ctx: ContainerContext, obj: FeatureObject, t: Tag)
    requires cmd.ObjectCommand?
    ensures Count(Middle(cmd, guiUp, ctx, obj), t) ==
      (if guiUp then
         Occurs(ViewProviderAttached(obj.id, cmd.pixmap), t) + Occurs(GeneratorRan(obj.id), t)
         + (match ctx
            case InBody => Occurs(AddedToBody(obj.id), t)
            case InPart => Occurs(AppendedToPart(obj.id), t)
            case NoContainer => 0)
       else Occurs(GeneratorRan(obj.id), t))
  {
    CountSmall(Middle(cmd, guiUp, ctx, obj), t);
  }

  /** Every event of kind `t1` comes before every event of kind `t2`. */
  ghost predicate Before(e: seq<Event>, t1: Tag, t2: Tag)
  {
    forall i, j :: 0 <= i < |e| && 0 <= j < |e| && TagOf(e[i]) == t1 && TagOf(e[j]) == t2 ==> i < j
  }

  /** Kinds that occur at most once, at known positions, occur in that order. */
  lemma BeforeByPositions(e: seq<Event>, t1: Tag, p1: nat, t2: Tag, p2: nat)
    requires Count(e, t1) <= 1 && Count(e, t2) <= 1 && p1 < p2
    requires Count(e, t1) == 1 ==> p1 < |e| && TagOf(e[p1]) == t1
    requires Count(e, t2) == 1 ==> p2 < |e| && TagOf(e[p2]) == t2
    ensures Before(e, t1, t2)
  {
    CountPositive(e, t1);
    CountPositive(e, t2);
    forall i, j | 0 <= i < |e| && 0 <= j < |e| && TagOf(e[i]) == t1 && TagOf(e[j]) == t2
      ensures i < j
    {
      CountAtMostOneUnique(e, t1, i, p1);
      CountAtMostOneUnique(e, t2, j, p2);
    }
  }

  /** The events of `create` spelled out, one case at a time. */
  lemma CreateEventsCases(newDoc: bool, cmd: Command, guiUp: bool, ctx: ContainerContext, obj: FeatureObject)
    requires cmd.ObjectCommand?
    ensures var pre := if newDoc then [DocumentCreated] else [];
            var open := TransactionOpened(TransactionTitle(cmd.name));
            var e := CreateEvents(newDoc, cmd, guiUp, ctx, obj);
            (!guiUp ==> e == pre + [open, ObjectAdded(obj), GeneratorRan(obj.id), TransactionCommitted])
            && (guiUp && ctx == InBody ==>
                  e == pre + [open, ObjectAdded(obj), ViewProviderAttached(obj.id, cmd.pixmap),
                              GeneratorRan(obj.id), AddedToBody(obj.id), TransactionCommitted])
            && (guiUp && ctx == InPart ==>
                  e == pre + [open, ObjectAdded(obj), ViewProviderAttached(obj.id, cmd.pixmap),
                              GeneratorRan(obj.id), AppendedToPart(obj.id), TransactionCommitted])
            && (guiUp && ctx == NoContainer ==>
                  e == pre + [open, ObjectAdded(obj), ViewProviderAttached(obj.id, cmd.pixmap),
                              GeneratorRan(obj.id), TransactionCommitted])
  {
  }

  /** Exactly one transaction is opened and exactly one committed; the commit is
      the last event, the open comes right after any new document, and every
      change to the document happens between the two. */
  lemma CreateTransactionBracket(newDoc: bool, cmd: Command, guiUp: bool, ctx: ContainerContext,
                                 obj: FeatureObject)
    requires cmd.ObjectCommand?
    ensures var e := CreateEvents(newDoc, cmd, guiUp, ctx, obj);
            var s := if newDoc then 1 else 0;
            Count(e, Open) == 1 && Count(e, Commit) == 1
            && Count(e, NewDoc) == s && (newDoc ==> e[0] == DocumentCreated)
            && e[s] == TransactionOpened(TransactionTitle(cmd.name))
            && e[|e| - 1] == TransactionCommitted
            && forall i :: 0 <= i < |e| ==>
                 (s < i < |e| - 1 <==> TagOf(e[i]) !in {NewDoc, Open, Commit})
  {
    CreateEventsCases(newDoc, cmd, guiUp, ctx, obj);
    CreateEventCounts(newDoc, cmd, guiUp, ctx, obj, Open);
    CreateEventCounts(newDoc, cmd, guiUp, ctx, obj, Commit);
    CreateEventCounts(newDoc, cmd, guiUp, ctx, obj, NewDoc);
  }

  /** The generator runs exactly once, and every event concerns the new object. */
  lemma CreateRunsGeneratorOnce(newDoc: bool, cmd: Command, guiUp: bool, ctx: ContainerContext,
                                obj: FeatureObject)
    requires cmd.ObjectCommand?
    ensures var e := CreateEvents(newDoc, cmd, guiUp, ctx, obj);
            Count(e, Run) == 1 && Count(e, Add) == 1
            && (forall i :: 0 <= i < |e| && e[i].ObjectAdded? ==> e[i].obj == obj)
            && (forall i :: 0 <= i < |e| && TagOf(e[i]) in {Attach, Run, ToBody, ToPart} ==> e[i].target == obj.id)
  {
    CreateEventsCases(newDoc, cmd, guiUp, ctx, obj);
    CreateEventCounts(newDoc, cmd, guiUp, ctx, obj, Run);
    CreateEventCounts(newDoc, cmd, guiUp, ctx, obj, Add);
  }

  /** With the GUI up the object's view provider, with the command's icon, is
      attached once, after the object is added and before the generator runs;
      headless, no view provider is attached. */
  lemma CreateAttachOrder(newDoc: bool, cmd: Command, guiUp: bool, ctx: ContainerContext, obj: FeatureObject)
    requires cmd.ObjectCommand?
    ensures var e := CreateEvents(newDoc, cmd, guiUp, ctx, obj);
            Count(e, Attach) == (if guiUp then 1 else 0)
            && (forall i :: 0 <= i < |e| && e[i].ViewProviderAttached? ==> e[i].icon == cmd.pixmap)
            && Before(e, Add, Attach) && Before(e, Attach, Run)
  {
    var e := CreateEvents(newDoc, cmd, guiUp, ctx, obj);
    var s := if newDoc then 1 else 0;
    CreateEventsCases(newDoc, cmd, guiUp, ctx, obj);
    CreateEventCounts(newDoc, cmd, guiUp, ctx, obj, Add);
    CreateEventCounts(newDoc, cmd, guiUp, ctx, obj, Attach);
    CreateEventCounts(newDoc, cmd, guiUp, ctx, obj, Run);
    var run := if guiUp then s + 3 else s + 2;
    BeforeByPositions(e, Add, s + 1, Attach, s + 2);
    BeforeByPositions(e, Attach, run - 1, Run, run);
  }

  /** The object is added, then the generator runs, then the object is put
      into its container. */
  lemma CreateOrder(newDoc: bool, cmd: Command, guiUp: bool, ctx: ContainerContext, obj: FeatureObject)
    requires cmd.ObjectCommand?
    ensures var e := CreateEvents(newDoc, cmd, guiUp, ctx, obj);
            Before(e, Add, Run) && Before(e, Run, ToBody) && Before(e, Run, ToPart)
  {
    var e := CreateEvents(newDoc, cmd, guiUp, ctx, obj);
    var s := if newDoc then 1 else 0;
    CreateEventsCases(newDoc, cmd, guiUp, ctx, obj);
    CreateEventCounts(newDoc, cmd, guiUp, ctx, obj, Add);
    CreateEventCounts(newDoc, cmd, guiUp, ctx, obj, Run);
    CreateEventCounts(newDoc, cmd, guiUp, ctx, obj, ToBody);
    CreateEventCounts(newDoc, cmd, guiUp, ctx, obj, ToPart);
    var run := if guiUp then s + 3 else s + 2;
    BeforeByPositions(e, Add, s + 1, Run, run);
    BeforeByPositions(e, Run, run, ToBody, s + 4);
    BeforeByPositions(e, Run, run, ToPart, s + 4);
  }

  /** The object goes into the body exactly when the context is a body, into the
      part exactly when it is a part, and into neither when headless. */
  lemma CreateContainerEvents(newDoc: bool, cmd: Command, guiUp: bool, ctx: ContainerContext,
                              obj: FeatureObject)
    requires cmd.ObjectCommand?
    ensures var e := CreateEvents(newDoc, cmd, guiUp, ctx, obj);
            Count(e, ToBody) == (if guiUp && ctx == InBody then 1 else 0)
            && Count(e, ToPart) == (if guiUp && ctx == InPart then 1 else 0)
  {
    CreateEventCounts(newDoc, cmd, guiUp, ctx, obj, ToBody);
    CreateEventCounts(newDoc, cmd, guiUp, ctx, obj, ToPart);
  }

  /** Appended to any trace, the calls of `create` add one open and one commit. */
  lemma CreateAddsOneTransaction(trace: seq<Event>, newDoc: bool, cmd: Command, guiUp: bool,
                                 ctx: ContainerContext, obj: FeatureObject)
    requires cmd.ObjectCommand?
    ensures var t := trace + CreateEvents(newDoc, cmd, guiUp, ctx, obj);
            Count(t, Open) == Count(trace, Open) + 1 && Count(t, Commit) == Count(trace, Commit) + 1
  {
    CountAppend(trace, CreateEvents(newDoc, cmd, guiUp, ctx, obj), Open);
    CountAppend(trace, CreateEvents(newDoc, cmd, guiUp, ctx, obj), Commit);
    CreateTransactionBracket(newDoc, cmd, guiUp, ctx, obj);
  }

  /** `c` with `obj` appended to its members when `here` holds. */
  function Placed(c: Option<Container>, obj: FeatureObject, here: bool): Option<Container>
  {
    if here && c.Some? then Some(c.value.(members := c.value.members + [obj])) else c
  }

  /** The state `create` leaves is well formed again; the new object was not in
      the document before, and ends up in the body exactly once when a body was
      active and the GUI up, and not at all otherwise. */
  lemma CreateKeepsWellFormed(hasDocument: bool, objects: seq<FeatureObject>, body: Option<Container>,
                              part: Option<Container>, guiUp: bool, obj: FeatureObject)
    requires WellFormed(hasDocument, objects, body, part)
    requires obj.id == |objects|
    ensures var ctx := ResolveContext(guiUp, body, part);
            WellFormed(true, objects + [obj], Placed(body, obj, ctx == InBody), Placed(part, obj, ctx == InPart))
            && obj !in objects
            && (body.Some? ==> multiset(Placed(body, obj, ctx == InBody).value.members)[obj]
                               == (if ctx == InBody then 1 else 0))
            && (part.Some? ==> multiset(Placed(part, obj, ctx == InPart).value.members)[obj]
                               == (if ctx == InPart then 1 else 0))
  {
    assert forall i :: 0 <= i < |objects| ==> objects[i] != obj;
    if body.Some? {
      assert obj !in body.value.members;
    }
    if part.Some? {
      assert obj !in part.value.members;
    }
  }

  /** `BaseObjectCommand.create()`. */
  method Create(cmd: Command, app: Host) returns (obj: FeatureObject)
    requires cmd.ObjectCommand?
    requires app.Valid()
    modifies app
    ensures app.Valid() && IsActive(app)
    ensures var ctx := ResolveContext(app.guiUp, old(app.body), old(app.part));
            obj == FeatureObject(|old(app.objects)|, cmd.name, KindFor(ctx))
            && app.objects == old(app.objects) + [obj]
            && app.body == Placed(old(app.body), obj, ctx == InBody)
            && app.part == Placed(old(app.part), obj, ctx == InPart)
            && app.trace == old(app.trace) + CreateEvents(!old(app.hasDocument), cmd, app.guiUp, ctx, obj)
    ensures obj !in old(app.objects)
    ensures app.Opens() == old(app.Opens()) + 1 && app.Commits() == old(app.Commits()) + 1
  {
    ghost var ctx := ResolveContext(app.guiUp, app.body, app.part);
    ghost var newDoc := !app.hasDocument;
    if !app.hasDocument {
      app.NewDocument();
    }
    app.OpenTransaction(TransactionTitle(cmd.name));
    if app.guiUp {
      var body := app.body;
      var part := app.part;
      if body.Some? {
        obj := app.AddObject(PartDesignFeaturePython, cmd.name);
      } else {
        obj := app.AddObject(PartFeaturePython, cmd.name);
      }
      app.AttachViewProvider(obj, cmd.pixmap);
      app.RunGenerator(obj);
      if body.Some? {
        app.BodyAddObject(obj);
      } else if part.Some? {
        app.PartAppend(obj);
      }
    } else {
      obj := app.AddObject(PartFeaturePython, cmd.name);
      app.RunGenerator(obj);
    }
    assert obj == FeatureObject(|old(app.objects)|, cmd.name, KindFor(ctx))
        && app.objects == old(app.objects) + [obj]
        && app.body == Placed(old(app.body), obj, ctx == InBody)
        && app.part == Placed(old(app.part), obj, ctx == InPart);
    app.CommitTransaction();
    assert app.trace == ExtendedByCreate(old(app.trace), newDoc, cmd, app.guiUp, ctx, obj);
    ExtendedByCreateSplit(old(app.trace), newDoc, cmd, app.guiUp, ctx, obj);
    CreateAddsOneTransaction(old(app.trace), newDoc, cmd, app.guiUp, ctx, obj);
    CreateKeepsWellFormed(old(app.hasDocument), old(app.objects), old(app.body), old(app.part), app.guiUp, obj);
  }
}
