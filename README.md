# Composite arrangement of the App Inventor designer, modelled in Dafny

`MockCompositeArrangement` is the designer's stand-in for an *external
component built from other components*. It is a vertical arrangement that

- loads two project files for its type: the **composition**
  (`assets/external_comps/<type>/composition.scmx`, the default children and
  alignments) and the **mapping** (`assets/external_comps/<type>/mapping.txt`,
  which exposed property drives which property of which nested component);
- when dropped from the palette, builds its children from the composition,
  reusing the composition when it is already loaded;
- routes every change of one of its properties: dropped while the mapping is
  not loaded, forwarded to the nested component named by the mapping's
  `$Name` under the mapping's `property`, or handled by the arrangement itself;
- finds the nested component by a depth-first search on instance names;
- hides `Width`, `Height`, `AlignHorizontal` and `AlignVertical` from the
  property panel, accepts no drops, and shows its type's display name.

Files:

- `wrappers.dfy` — `Option`, the model of a nullable reference.
- `component_tree.dfy` (module `ComponentTree`) — the component tree as a
  datatype `Node(name, props, children)`, where `props` is the component's
  property store. `Find`/`FindIn` is the search. `Subtrees` lists a subtree in
  pre-order, and `FirstNamed` is a linear scan of that list, used as the
  reference the search is proved equal to. `Deliver` hands a value to the
  component the search finds. `Labels`/`Patch` state that no other
  component's name or store changes, and `Erase` states that the tree's
  shape (names, nesting, child order) stays the same.
- `composite_arrangement.dfy` (module `Composite`) — the parsed documents
  (`MappingDoc`, `Composition`), the routing decision `RouteOf`, and the pure
  effects `Notify` (onPropertyChange), `Changed` (changeProperty), `Aligned`
  and `Build` (buildDescendentTree). The class `CompositeArrangement` holds
  `composition`, `propertiesMap`, the own property store `properties`, the
  `children` and `requests`, the file ids handed to the project service. Its
  methods are proved against those functions.

Modelling choices:

- A component's handler receiving `(p, v)` is modelled as that component
  recording `v` under `p` in its store. That is the arrangement's own handler
  for an unmapped property, and a nested component's for a forwarded one.
- `changeProperty` is the inherited MockComponent operation. It stores the
  value and then notifies the property-change listener, which is this
  arrangement's `onPropertyChange`. So the alignment overrides of a
  composition also go through the routing.
- The two asynchronous loads become a recorded request (`requests`) plus a
  completion method the caller invokes with the parsed content. `None` stands
  for content that failed its checksum. The `attached` flag stands for
  `getContainer() != null`.
- `initPropertiesMap` is private and is called only from the constructor,
  where `propertiesMap` is still null. So the source makes one mapping
  request per arrangement and its guard never fires. The model's
  `InitPropertiesMap` can be called at any time so that the guard can be
  stated. Each mapping completion overwrites `propertiesMap`.

## Model

| member | source | states |
|---|---|---|
| ComponentTree.Find | appinventor/appengine/src/com/google/appinventor/client/editor/simple/components/MockCompositeArrangement.java:171-184 | if the starting component has the name, it is the result whatever its children are; any result carries the searched name |
| ComponentTree.FindIn | appinventor/appengine/src/com/google/appinventor/client/editor/simple/components/MockCompositeArrangement.java:176-183 | searching the children yields only components with the searched name |
| ComponentTree.FindIsFirst | appinventor/appengine/src/com/google/appinventor/client/editor/simple/components/MockCompositeArrangement.java:171-184 | the search equals a linear scan of the subtree's pre-order listing: it returns the first component of that listing with the name, or None |
| ComponentTree.FindInIsFirst | appinventor/appengine/src/com/google/appinventor/client/editor/simple/components/MockCompositeArrangement.java:176-183 | searching a child sequence returns the first match in the pre-order listing of all the children's subtrees |
| ComponentTree.FindSound | appinventor/appengine/src/com/google/appinventor/client/editor/simple/components/MockCompositeArrangement.java:171-184 | a found component is a component of the searched subtree and has the searched name |
| ComponentTree.FindNoneIff | appinventor/appengine/src/com/google/appinventor/client/editor/simple/components/MockCompositeArrangement.java:176-183 | the search returns None exactly when no component of the subtree has the name |
| ComponentTree.FindInFirstChild | appinventor/appengine/src/com/google/appinventor/client/editor/simple/components/MockCompositeArrangement.java:176-181 | children are tried in order: the first child whose subtree contains the name gives the result |
| ComponentTree.FindInNoneIff | appinventor/appengine/src/com/google/appinventor/client/editor/simple/components/MockCompositeArrangement.java:176-183 | searching the children fails exactly when the search in every child fails |
| ComponentTree.Deliver | appinventor/appengine/src/com/google/appinventor/client/editor/simple/components/MockCompositeArrangement.java:163-164 | handing a value to the found component keeps the root's name and its number of children |
| ComponentTree.DeliverIn | appinventor/appengine/src/com/google/appinventor/client/editor/simple/components/MockCompositeArrangement.java:163-164 | handing a value to the found component inside a child sequence keeps its length |
| ComponentTree.DeliverReaches | appinventor/appengine/src/com/google/appinventor/client/editor/simple/components/MockCompositeArrangement.java:163-164 | afterwards the search finds the same component, now holding the new value under the property |
| ComponentTree.DeliverInReaches | appinventor/appengine/src/com/google/appinventor/client/editor/simple/components/MockCompositeArrangement.java:163-164 | the same, for a search that starts at the children |
| ComponentTree.DeliverKeepsNames | appinventor/appengine/src/com/google/appinventor/client/editor/simple/components/MockCompositeArrangement.java:163-164 | delivery neither adds nor removes a findable name |
| ComponentTree.DeliverInKeepsNames | appinventor/appengine/src/com/google/appinventor/client/editor/simple/components/MockCompositeArrangement.java:163-164 | the same, for a child sequence |
| ComponentTree.DeliverOnlyFirst | appinventor/appengine/src/com/google/appinventor/client/editor/simple/components/MockCompositeArrangement.java:163-164 | in the pre-order listing, only the first component with the name changes, and only that property; every other name and store is unchanged |
| ComponentTree.DeliverInOnlyFirst | appinventor/appengine/src/com/google/appinventor/client/editor/simple/components/MockCompositeArrangement.java:163-164 | the same, for a child sequence |
| ComponentTree.DeliverKeepsShape | appinventor/appengine/src/com/google/appinventor/client/editor/simple/components/MockCompositeArrangement.java:163-164 | delivery changes property stores only: with the stores erased, the tree is the same (names, nesting, child order) |
| ComponentTree.DeliverInKeepsShape | appinventor/appengine/src/com/google/appinventor/client/editor/simple/components/MockCompositeArrangement.java:163-164 | the same, for a child sequence |
| Composite.CompositionFileId | appinventor/appengine/src/com/google/appinventor/client/editor/simple/components/MockCompositeArrangement.java:79 | the composition of a type is the file `composition.scmx` in the type's folder under `assets/external_comps/`, and the type can be read back from the id |
| Composite.MappingFileId | appinventor/appengine/src/com/google/appinventor/client/editor/simple/components/MockCompositeArrangement.java:193 | the mapping of a type is the file `mapping.txt` in the type's folder under `assets/external_comps/`, and the type can be read back from the id |
| Composite.FileIdsDistinct | appinventor/appengine/src/com/google/appinventor/client/editor/simple/components/MockCompositeArrangement.java:79 | the composition file (built here) and the mapping file (built at line 193) are never the same file, for any two types |
| Composite.CompositionFileIdInjective | appinventor/appengine/src/com/google/appinventor/client/editor/simple/components/MockCompositeArrangement.java:79 | different component types load different composition files |
| Composite.RouteOf | appinventor/appengine/src/com/google/appinventor/client/editor/simple/components/MockCompositeArrangement.java:154-167 | exactly one of three routes: dropped iff the mapping is absent; forwarded iff the property is a key, and then to the mapping's entry; own iff the mapping is present and lacks the property |
| Composite.Notify | appinventor/appengine/src/com/google/appinventor/client/editor/simple/components/MockCompositeArrangement.java:150-167 | without a mapping nothing changes; an unmapped change updates only the arrangement's own store; a mapped change leaves the own store alone, and the search then finds the target with the same value under the real property |
| Composite.NotifyEffect | appinventor/appengine/src/com/google/appinventor/client/editor/simple/components/MockCompositeArrangement.java:154-167 | in the pre-order listing of the arrangement's tree a change touches at most one entry: none when dropped, the arrangement's own (index 0) for an unmapped property, the first proper descendant named by `$Name` for a mapped one; the tree's shape never changes |
| Composite.NotifyKeepsNames | appinventor/appengine/src/com/google/appinventor/client/editor/simple/components/MockCompositeArrangement.java:158-164 | a property change never makes a component name findable or unfindable |
| Composite.ChangedKeepsRoutable | appinventor/appengine/src/com/google/appinventor/client/editor/simple/components/MockCompositeArrangement.java:220-226 | after one alignment change, the next change can still reach its target |
| Composite.Changed | appinventor/appengine/src/com/google/appinventor/client/editor/simple/components/MockCompositeArrangement.java:221 | changeProperty leaves the new value in the arrangement's store under that property, and every other entry of the store is unchanged; the children are unchanged unless the property is mapped, and then the search finds the target holding the same value under the real property; the tree's shape never changes |
| Composite.Aligned | appinventor/appengine/src/com/google/appinventor/client/editor/simple/components/MockCompositeArrangement.java:215-226 | an alignment property takes the composition's value when `Properties` holds it and keeps its old value otherwise; every other entry of the own store is unchanged; the children are unchanged unless an alignment is mapped, and a mapped alignment leaves the composition's value in its target's store under the real property (the horizontal one unless a mapped vertical override comes after it); the tree's shape never changes; with neither alignment present nothing changes |
| Composite.Build | appinventor/appengine/src/com/google/appinventor/client/editor/simple/components/MockCompositeArrangement.java:214-231 | the own store is the one after the alignment overrides; the existing children, as left by the overrides, stay first, and after them comes one child per `$Components` entry, in order |
| Composite.CompositeArrangement.constructor | appinventor/appengine/src/com/google/appinventor/client/editor/simple/components/MockCompositeArrangement.java:56-69 | records type and display name, requests the mapping, and adds both alignments with their defaults |
| Composite.CompositeArrangement.InitPropertiesMap | appinventor/appengine/src/com/google/appinventor/client/editor/simple/components/MockCompositeArrangement.java:186-211 | once a mapping is present, no request is issued; otherwise exactly the mapping file of the type is requested |
| Composite.CompositeArrangement.LoadMappingCompleted | appinventor/appengine/src/com/google/appinventor/client/editor/simple/components/MockCompositeArrangement.java:196-208 | a failed checksum changes nothing; otherwise the mapping becomes the document's `properties` object |
| Composite.CompositeArrangement.OnCreateFromPalette | appinventor/appengine/src/com/google/appinventor/client/editor/simple/components/MockCompositeArrangement.java:71-106 | with a cached composition, builds from it and issues no request; otherwise requests the composition file and changes nothing else |
| Composite.CompositeArrangement.LoadCompositionCompleted | appinventor/appengine/src/com/google/appinventor/client/editor/simple/components/MockCompositeArrangement.java:83-103 | a failed checksum or a missing container changes nothing; otherwise caches the composition and builds from it |
| Composite.CompositeArrangement.BuildDescendentTree | appinventor/appengine/src/com/google/appinventor/client/editor/simple/components/MockCompositeArrangement.java:214-232 | the new arrangement state is `Build` of the old one and the composition |
| Composite.CompositeArrangement.AddComponent | appinventor/appengine/src/com/google/appinventor/client/editor/simple/components/MockCompositeArrangement.java:229-231 | a created component becomes the arrangement's last child |
| Composite.CompositeArrangement.ChangeProperty | appinventor/appengine/src/com/google/appinventor/client/editor/simple/components/MockCompositeArrangement.java:221-225 | the new arrangement state is `Changed` of the old one |
| Composite.CompositeArrangement.OnPropertyChange | appinventor/appengine/src/com/google/appinventor/client/editor/simple/components/MockCompositeArrangement.java:150-168 | the new arrangement state is `Notify` of the old one; mapping, composition and requests are untouched |
| Composite.CompositeArrangement.IsPropertyVisible | appinventor/appengine/src/com/google/appinventor/client/editor/simple/components/MockCompositeArrangement.java:116-127 | the four hidden names are never visible; any other name follows the inherited rule |
| Composite.CompositeArrangement.AcceptableTarget | appinventor/appengine/src/com/google/appinventor/client/editor/simple/components/MockCompositeArrangement.java:129-132 | the arrangement never accepts a drop |
| Composite.CompositeArrangement.VisibleTypeName | appinventor/appengine/src/com/google/appinventor/client/editor/simple/components/MockCompositeArrangement.java:134-137 | the visible type name is the display name given at construction |

## Left out

- Composite.CompositeArrangement.OnPropertyChange: requires that a mapped target is found by the search and is not the arrangement itself. The source dereferences the search result unchecked, so a missing target throws. A target equal to the arrangement's own name re-enters the arrangement's own property-change handler with the real property, which can recur without bound. Neither case is modelled.
- Composite.CompositeArrangement.ChangeProperty, Composite.CompositeArrangement.BuildDescendentTree, Composite.CompositeArrangement.OnCreateFromPalette, Composite.CompositeArrangement.LoadCompositionCompleted: these inherit that requirement for the alignment overrides they route.
- Remote loading (`load2`, `ChecksumedLoadFile`): remote I/O. A load is a recorded request plus a completion method. The failure callback's error report is not modelled; a checksum failure only leaves the state unchanged.
- JSON parsing: done by a foreign library. The documents arrive parsed. Malformed documents are outside the model because the parsed types cannot express them: a missing `Properties`, `$Components`, `$Name` or `property` entry, or a non-string value, each of which throws in the source.
- Timing of the two asynchronous loads: no order is imposed between them. The model allows either completion at any time. A build before the mapping arrives drops its alignment notifications.
- `buildTree` (tree widget items), `onComponentAdded` (event unsinking), logging, property editors and images: UI framework calls with no state of the model behind them.
- `YaFormEditor.createMockComponent` is not part of this model. The entry's component is appended to the children as given.
- Inherited behaviour of MockHVArrangement and MockComponent is not part of this model. Their initial properties are not in the store. Their visibility rule is a parameter of `IsPropertyVisible`. Their property-change handler is modelled as recording the value. A nested component that is itself a composite arrangement would route the change again, which is not modelled.
- Composite.CompositeArrangement.constructor: the instance name is given at construction, although the designer assigns it separately. The alignment defaults `ComponentConstants.HORIZONTAL_ALIGNMENT_DEFAULT` and `VERTICAL_ALIGNMENT_DEFAULT` are taken as `1` (left, top); ComponentConstants is not part of this model.
