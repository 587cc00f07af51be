/**
 * The composite arrangement of the App Inventor designer: a vertical
 * arrangement that stands for an external component built from other
 * components.  It loads the component's composition (its default children)
 * and its property mapping (which exposed property drives which property of
 * which nested component), builds its children from the composition, and
 * routes property changes through the mapping.
 *
 * The arrangement is seen as a component-tree node: its instance name, its own
 * property store and its children.  The pure functions `RouteOf`, `Notify`,
 * `Changed`, `Aligned` and `Build` say what each operation does to that node;
 * the class `CompositeArrangement` holds the state and its methods are proved
 * against those functions.
 */
module Composite {
  import opened Wrappers
  import opened ComponentTree

  const Width: string := "Width"
  const Height: string := "Height"
  const AlignHorizontal: string := "AlignHorizontal"
  const AlignVertical: string := "AlignVertical"

  /** Default alignments: left and top. */
  const AlignHorizontalDefault: string := "1"
  const AlignVerticalDefault: string := "1"

  /** The properties the arrangement never shows in the property panel. */
  const Hidden: set<string> := {Width, Height, AlignHorizontal, AlignVertical}

  const ExternalComponentsFolder: string := "assets/external_comps/"

  /** Project file holding the composition of an external component type. */
  function CompositionFileId(typeName: string): (r: string)
    ensures |r| == |ExternalComponentsFolder| + |typeName| + |"/composition.scmx"|
    ensures r[..|ExternalComponentsFolder|] == ExternalComponentsFolder
    ensures r[|ExternalComponentsFolder|..|ExternalComponentsFolder| + |typeName|] == typeName
    ensures r[|ExternalComponentsFolder| + |typeName|..] == "/composition.scmx"
  {
    ExternalComponentsFolder + typeName + "/composition.scmx"
  }

  /** Project file holding the property mapping of an external component type. */
  function MappingFileId(typeName: string): (r: string)
    ensures |r| == |ExternalComponentsFolder| + |typeName| + |"/mapping.txt"|
    ensures r[..|ExternalComponentsFolder|] == ExternalComponentsFolder
    ensures r[|ExternalComponentsFolder|..|ExternalComponentsFolder| + |typeName|] == typeName
    ensures r[|ExternalComponentsFolder| + |typeName|..] == "/mapping.txt"
  {
    ExternalComponentsFolder + typeName + "/mapping.txt"
  }

  /** The two loads of a type never ask for the same file. */
  lemma FileIdsDistinct(a: string, b: string)
    ensures CompositionFileId(a) != MappingFileId(b)
  {
    var c, m := CompositionFileId(a), MappingFileId(b);
    assert c[|c| - 1] == 'x';
    assert m[|m| - 1] == 't';
  }

  /** Different types load different compositions. */
  lemma CompositionFileIdInjective(a: string, b: string)
    ensures CompositionFileId(a) == CompositionFileId(b) ==> a == b
  {
  }

  // ---------------------------------------------------------------------
  // The parsed documents
  // ---------------------------------------------------------------------

  /** A mapping entry: the nested component's instance name ("$Name") and its real "property". */
  datatype Target = Target(name: string, property: string)

  /** Exposed property name to the property it drives. */
  type PropertiesMap = map<string, Target>

  /** The parsed mapping file; its "properties" object. */
  datatype MappingDoc = MappingDoc(properties: PropertiesMap)

  /**
   * The parsed composition file: the string-valued entries of its "Properties"
   * object and the component descriptions of its "$Components" array, each
   * given as the child component it instantiates.
   */
  datatype Composition = Composition(values: map<string, string>, components: seq<Node>)

  // ---------------------------------------------------------------------
  // Routing a property change
  // ---------------------------------------------------------------------

  datatype Route =
    | Dropped          // the mapping is not loaded yet
    | Forward(target: Target)  // to a nested component's real property
    | Own              // to the arrangement's own handler

  function RouteOf(pm: Option<PropertiesMap>, p: string): (r: Route)
    ensures r == Dropped <==> pm.None?
    ensures r.Forward? <==> pm.Some? && p in pm.value
    ensures r.Forward? ==> r.target == pm.value[p]
    ensures r == Own <==> pm.Some? && p !in pm.value
  {
    match pm
    case None => Dropped
    case Some(m) => if p in m then Forward(m[p]) else Own
  }

  /**
   * The change can be carried out: a forwarded change names a nested component
   * that the search from the arrangement finds (the source dereferences the
   * search result unchecked) and that is not the arrangement itself.
   */
  predicate Routable(pm: Option<PropertiesMap>, self: Node, p: string)
  {
    match RouteOf(pm, p)
    case Forward(t) => t.name != self.name && Find(self, t.name).Some?
    case _ => true
  }

  /** The arrangement after its onPropertyChange(p, v). */
  function Notify(pm: Option<PropertiesMap>, self: Node, p: string, v: string): (r: Node)
    requires Routable(pm, self, p)
    ensures r.name == self.name && |r.children| == |self.children|
    ensures pm.None? ==> r == self
    ensures RouteOf(pm, p) == Own ==> r == Updated(self, p, v)
    ensures RouteOf(pm, p).Forward? ==>
              var t := RouteOf(pm, p).target;
              r.props == self.props &&
              Find(r, t.name) == Some(Updated(Find(self, t.name).value, t.property, v))
  {
    match RouteOf(pm, p)
    case Dropped => self
    case Own => Updated(self, p, v)
    case Forward(t) =>
      DeliverReaches(self, t.name, t.property, v);
      Deliver(self, t.name, t.property, v)
  }

  /**
   * In the pre-order listing of the arrangement's tree a change touches one
   * entry: none while the mapping is not loaded; the arrangement's own entry
   * for an unmapped property; for a mapped one the first nested component with
   * the target's name, which receives the same value under the real property.
   * Names, nesting and child order never change.
   */
  lemma NotifyEffect(pm: Option<PropertiesMap>, self: Node, p: string, v: string)
    requires Routable(pm, self, p)
    ensures var s, r := Subtrees(self), Subtrees(Notify(pm, self, p, v));
      match RouteOf(pm, p)
      case Dropped => Labels(r) == Labels(s)
      case Own => Labels(r) == Patch(Labels(s), 0, p, v)
      case Forward(t) =>
        var k := FirstNamedIndex(s, t.name);
        0 < k < |s| && Labels(r) == Patch(Labels(s), k, t.property, v)
    ensures Erase(Notify(pm, self, p, v)) == Erase(self)
  {
    match RouteOf(pm, p)
    case Dropped =>
    case Own =>
      var u := Updated(self, p, v);
      assert Subtrees(u) == [u] + SubtreesIn(self.children);
    case Forward(t) =>
      DeliverOnlyFirst(self, t.name, t.property, v);
      DeliverKeepsShape(self, t.name, t.property, v);
  }

  /** A change never adds or removes a name from the arrangement's tree. */
  lemma NotifyKeepsNames(pm: Option<PropertiesMap>, self: Node, p: string, v: string, m: string)
    requires Routable(pm, self, p)
    ensures Find(Notify(pm, self, p, v), m).Some? == Find(self, m).Some?
  {
    match RouteOf(pm, p)
    case Dropped =>
    case Own =>
    case Forward(t) =>
      DeliverKeepsNames(self, t.name, t.property, v, m);
  }

  /** Routability depends on names only, so a change keeps every change routable. */
  lemma ChangedKeepsRoutable(pm: Option<PropertiesMap>, self: Node, p: string, v: string, q: string)
    requires Routable(pm, self, p)
    requires Routable(pm, self, q)
    ensures Routable(pm, Changed(pm, self, p, v), q)
  {
    var u := Updated(self, p, v);
    assert Routable(pm, u, p);
    match RouteOf(pm, q)
    case Forward(t) =>
      assert Find(u, t.name).Some?;
      NotifyKeepsNames(pm, u, p, v, t.name);
    case _ =>
  }

  /** The arrangement after changeProperty(p, v): its store takes v, then listeners are notified. */
  function Changed(pm: Option<PropertiesMap>, self: Node, p: string, v: string): (r: Node)
    requires Routable(pm, self, p)
    ensures r.name == self.name && |r.children| == |self.children|
    ensures p in r.props && r.props[p] == v
    ensures forall q :: q != p ==> (q in r.props <==> q in self.props)
    ensures forall q :: q != p && q in self.props ==> r.props[q] == self.props[q]
    ensures !RouteOf(pm, p).Forward? ==> r.children == self.children
    ensures RouteOf(pm, p).Forward? ==>
              var t := RouteOf(pm, p).target;
              Find(r, t.name) == Some(Updated(Find(self, t.name).value, t.property, v))
    ensures Erase(r) == Erase(self)
  {
    var u := Updated(self, p, v);
    assert Routable(pm, u, p);
    NotifyEffect(pm, u, p, v);
    Notify(pm, u, p, v)
  }

  // ---------------------------------------------------------------------
  // Building from a composition
  // ---------------------------------------------------------------------

  predicate AlignmentRoutable(pm: Option<PropertiesMap>, self: Node, values: map<string, string>)
  {
    (AlignHorizontal in values ==> Routable(pm, self, AlignHorizontal)) &&
    (AlignVertical in values ==> Routable(pm, self, AlignVertical))
  }

  /** The two stores agree on property q. */
  predicate Agree(a: map<string, string>, b: map<string, string>, q: string)
  {
    (q in a <==> q in b) && (q in a ==> a[q] == b[q])
  }

  /** The arrangement after the alignment overrides of a composition. */
  function Aligned(pm: Option<PropertiesMap>, self: Node, values: map<string, string>): (r: Node)
    requires AlignmentRoutable(pm, self, values)
    ensures r.name == self.name && |r.children| == |self.children|
    ensures AlignHorizontal in values ==>
              AlignHorizontal in r.props && r.props[AlignHorizontal] == values[AlignHorizontal]
    ensures AlignVertical in values ==>
              AlignVertical in r.props && r.props[AlignVertical] == values[AlignVertical]
    ensures AlignHorizontal !in values ==> Agree(r.props, self.props, AlignHorizontal)
    ensures AlignVertical !in values ==> Agree(r.props, self.props, AlignVertical)
    ensures AlignHorizontal !in values && AlignVertical !in values ==> r == self
    ensures forall q :: q != AlignHorizontal && q != AlignVertical ==> Agree(r.props, self.props, q)
    ensures !RouteOf(pm, AlignHorizontal).Forward? && !RouteOf(pm, AlignVertical).Forward? ==>
              r.children == self.children
    ensures AlignVertical in values && RouteOf(pm, AlignVertical).Forward? ==>
              var t := RouteOf(pm, AlignVertical).target;
              Find(r, t.name).Some? && t.property in Find(r, t.name).value.props &&
              Find(r, t.name).value.props[t.property] == values[AlignVertical]
    ensures AlignHorizontal in values && RouteOf(pm, AlignHorizontal).Forward? &&
            (AlignVertical !in values || !RouteOf(pm, AlignVertical).Forward?) ==>
              var t := RouteOf(pm, AlignHorizontal).target;
              Find(r, t.name).Some? && t.property in Find(r, t.name).value.props &&
              Find(r, t.name).value.props[t.property] == values[AlignHorizontal]
    ensures Erase(r) == Erase(self)
  {
    var h := HorizontalAligned(pm, self, values);
    HorizontalKeepsVertical(pm, self, values);
    if AlignVertical in values then Changed(pm, h, AlignVertical, values[AlignVertical]) else h
  }

  /** The arrangement after the horizontal override alone. */
  function HorizontalAligned(pm: Option<PropertiesMap>, self: Node, values: map<string, string>): Node
    requires AlignmentRoutable(pm, self, values)
  {
    if AlignHorizontal in values then Changed(pm, self, AlignHorizontal, values[AlignHorizontal]) else self
  }

  lemma HorizontalKeepsVertical(pm: Option<PropertiesMap>, self: Node, values: map<string, string>)
    requires AlignmentRoutable(pm, self, values)
    ensures AlignVertical in values ==> Routable(pm, HorizontalAligned(pm, self, values), AlignVertical)
  {
    if AlignVertical in values && AlignHorizontal in values {
      ChangedKeepsRoutable(pm, self, AlignHorizontal, values[AlignHorizontal], AlignVertical);
    }
  }

  /** The arrangement after building from a composition: overrides, then one child per entry. */
  function Build(pm: Option<PropertiesMap>, self: Node, c: Composition): (r: Node)
    requires AlignmentRoutable(pm, self, c.values)
    ensures r.name == self.name
    ensures r.props == Aligned(pm, self, c.values).props
    ensures |r.children| == |self.children| + |c.components|
    ensures r.children[..|self.children|] == Aligned(pm, self, c.values).children
    ensures r.children[|self.children|..] == c.components
  {
    var a := Aligned(pm, self, c.values);
    a.(children := a.children + c.components)
  }

  // ---------------------------------------------------------------------
  // The widget
  // ---------------------------------------------------------------------

  class CompositeArrangement {
    /** The external component type this arrangement represents. */
    const typeName: string
    /** The type's displayed name. */
    const displayName: string
    /** This component's instance name in the designer. */
    const instanceName: string

    var properties: map<string, string>
    var children: seq<Node>
    var composition: Option<Composition>
    var propertiesMap: Option<PropertiesMap>
    /** File ids handed to the project service's load, in order. */
    var requests: seq<string>

    /** The arrangement as a node of the component tree. */
    function AsNode(): (r: Node)
      reads this
      ensures r.name == instanceName && r.props == properties && r.children == children
    {
      Node(instanceName, properties, children)
    }

    constructor (typeName: string, displayName: string, instanceName: string)
      ensures this.typeName == typeName && this.displayName == displayName
      ensures this.instanceName == instanceName
      ensures composition == None && propertiesMap == None && children == []
      ensures properties == map[AlignHorizontal := AlignHorizontalDefault, AlignVertical := AlignVerticalDefault]
      ensures requests == [MappingFileId(typeName)]
    {
      this.typeName := typeName;
      this.displayName := displayName;
      this.instanceName := instanceName;
      properties := map[];
      children := [];
      composition := None;
      propertiesMap := None;
      requests := [];
      new;
      InitPropertiesMap();
      properties := properties[AlignHorizontal := AlignHorizontalDefault];
      properties := properties[AlignVertical := AlignVerticalDefault];
    }

    /** Ask for the mapping file, unless the mapping is already there. */
    method InitPropertiesMap()
      modifies this`requests
      ensures propertiesMap.Some? ==> requests == old(requests)
      ensures propertiesMap.None? ==> requests == old(requests) + [MappingFileId(typeName)]
    {
      if propertiesMap.Some? {
        return;
      }
      requests := requests + [MappingFileId(typeName)];
    }

    /** The mapping load finished; None stands for content that failed its checksum. */
    method LoadMappingCompleted(content: Option<MappingDoc>)
      modifies this`propertiesMap
      ensures content.None? ==> propertiesMap == old(propertiesMap)
      ensures content.Some? ==> propertiesMap == Some(content.value.properties)
    {
      if content.Some? {
        propertiesMap := Some(content.value.properties);
      }
    }

    /** Dropped from the palette: build from the cached composition, or ask for it. */
    method OnCreateFromPalette()
      requires composition.Some? ==> AlignmentRoutable(propertiesMap, AsNode(), composition.value.values)
      modifies this`properties, this`children, this`requests
      ensures old(composition).Some? ==>
                requests == old(requests) &&
                AsNode() == Build(propertiesMap, old(AsNode()), composition.value)
      ensures old(composition).None? ==>
                requests == old(requests) + [CompositionFileId(typeName)] &&
                properties == old(properties) && children == old(children)
    {
      if composition.Some? {
        BuildDescendentTree(composition.value);
        return;
      }
      requests := requests + [CompositionFileId(typeName)];
    }

    /**
     * The composition load finished.  None stands for content that failed its
     * checksum; `attached` is false when the arrangement has no container yet,
     * in which case the result is ignored.
     */
    method LoadCompositionCompleted(content: Option<Composition>, attached: bool)
      requires content.Some? && attached ==>
                 AlignmentRoutable(propertiesMap, AsNode(), content.value.values)
      modifies this`properties, this`children, this`composition
      ensures content.None? || !attached ==>
                composition == old(composition) && AsNode() == old(AsNode())
      ensures content.Some? && attached ==>
                composition == content &&
                AsNode() == Build(propertiesMap, old(AsNode()), content.value)
    {
      if content.None? || !attached {
        return;
      }
      composition := content;
      BuildDescendentTree(content.value);
    }

    /** Apply the composition's alignment overrides, then add its components as children. */
    method BuildDescendentTree(c: Composition)
      requires AlignmentRoutable(propertiesMap, AsNode(), c.values)
      modifies this`properties, this`children
      ensures AsNode() == Build(propertiesMap, old(AsNode()), c)
    {
      ghost var start := AsNode();
      if AlignHorizontal in c.values {
        ChangeProperty(AlignHorizontal, c.values[AlignHorizontal]);
      }
      if AlignVertical in c.values {
        if AlignHorizontal in c.values {
          ChangedKeepsRoutable(propertiesMap, start, AlignHorizontal, c.values[AlignHorizontal], AlignVertical);
        }
        ChangeProperty(AlignVertical, c.values[AlignVertical]);
      }
      ghost var aligned := AsNode();
      assert aligned == Aligned(propertiesMap, start, c.values);
      var i := 0;
      while i < |c.components|
        invariant 0 <= i <= |c.components|
        invariant properties == aligned.props
        invariant children == aligned.children + c.components[..i]
      {
        AddComponent(c.components[i]);
        i := i + 1;
      }
    }

    /** A component created from a description is added as the last child of this arrangement. */
    method AddComponent(child: Node)
      modifies this`children
      ensures children == old(children) + [child]
    {
      children := children + [child];
    }

    /** Store a new value for one of the arrangement's own properties and notify. */
    method ChangeProperty(p: string, v: string)
      requires Routable(propertiesMap, AsNode(), p)
      modifies this`properties, this`children
      ensures AsNode() == Changed(propertiesMap, old(AsNode()), p, v)
    {
      properties := properties[p := v];
      assert AsNode() == Updated(old(AsNode()), p, v);
      OnPropertyChange(p, v);
    }

    /** Route a change of one of the arrangement's properties through the mapping. */
    method OnPropertyChange(p: string, v: string)
      requires Routable(propertiesMap, AsNode(), p)
      modifies this`properties, this`children
      ensures AsNode() == Notify(propertiesMap, old(AsNode()), p, v)
    {
      match RouteOf(propertiesMap, p)
      case Dropped =>
        return;
      case Forward(t) =>
        children := DeliverIn(children, t.name, t.property, v);
      case Own =>
        properties := properties[p := v];
    }

    /** Width, Height and the two alignments are hidden; other properties follow the inherited rule. */
    function IsPropertyVisible(p: string, inherited: string -> bool): (r: bool)
      ensures p in Hidden ==> !r
      ensures p !in Hidden ==> r == inherited(p)
    {
      if p == Width || p == Height || p == AlignHorizontal || p == AlignVertical then false
      else inherited(p)
    }

    /** Nothing can be dropped into a composite arrangement. */
    function AcceptableTarget(): (r: bool)
      ensures !r
    {
      false
    }

    /** The palette and the tree show the type's displayed name. */
    function VisibleTypeName(): (r: string)
      ensures r == displayName
    {
      displayName
    }
  }
}
