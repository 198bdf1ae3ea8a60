/**
 * `withFontSizes( ...args )`: the higher-order component that wires font-size
 * attributes of a block to the editor's font-size presets. Modelled here:
 * the attribute-to-context map built from the arguments, the setters it
 * creates, what a setter writes, and the state derived from the props.
 */
module WithFontSizes {

  import opened Wrappers
  import opened Blocks

  /** An argument: an attribute name (context 'font-size') or a map from attribute names to contexts. */
  datatype FontSizeArgument = AttributeName(name: string) | ContextMap(contexts: map<string, string>)

  /** The entries one argument contributes to the font-size map. */
  function ArgumentEntries(arg: FontSizeArgument): (entries: map<string, string>)
    ensures arg.AttributeName? ==> entries == map[arg.name := "font-size"]
    ensures arg.ContextMap? ==> entries == arg.contexts
  {
    match arg
    case AttributeName(name) => map[name := "font-size"]
    case ContextMap(contexts) => contexts
  }

  /**
   * `fontSizeMap`: the arguments spread one after the other into one object.
   * Its keys are the attribute names of all arguments.
   */
  function FontSizeMap(args: seq<FontSizeArgument>): (m: map<string, string>)
    ensures forall k :: k in m <==> exists i :: 0 <= i < |args| && k in ArgumentEntries(args[i])
  {
    if args == [] then map[]
    else
      var previous := FontSizeMap(args[..|args| - 1]);
      assert forall i :: 0 <= i < |args| - 1 ==> args[..|args| - 1][i] == args[i];
      previous + ArgumentEntries(args[|args| - 1])
  }

  /** When several arguments name the same attribute, the context of the last one wins. */
  lemma {:induction false} LastArgumentWins(args: seq<FontSizeArgument>, i: nat, k: string)
    requires i < |args| && k in ArgumentEntries(args[i])
    requires forall j :: i < j < |args| ==> k !in ArgumentEntries(args[j])
    ensures k in FontSizeMap(args) && FontSizeMap(args)[k] == ArgumentEntries(args[i])[k]
  {
    var n := |args| - 1;
    var front := args[..n];
    assert FontSizeMap(args) == FontSizeMap(front) + ArgumentEntries(args[n]);
    if i < n {
      assert front[i] == args[i];
      forall j | i < j < n ensures k !in ArgumentEntries(front[j]) {
        assert front[j] == args[j];
      }
      LastArgumentWins(front, i, k);
    }
  }

  /** The preset font sizes of the editor settings. */
  datatype FontSizePreset = FontSizePreset(name: string, slug: Option<string>, size: int)

  /** What `getFontSize` resolves an attribute pair to: a preset's slug and size, or a custom size. */
  datatype FontSizeObject = FontSizeObject(slug: Option<string>, size: Option<int>)

  /** The helpers the component calls but does not define (lodash `upperFirst` and two font-size utilities). */
  datatype Helpers = Helpers(
    upperFirst: string -> string,
    getFontSize: (seq<FontSizePreset>, Option<Value>, Option<Value>) -> FontSizeObject,
    getFontSizeClass: (string, Value) -> string)

  function SetterName(helpers: Helpers, name: string): string
  {
    "set" + helpers.upperFirst(name)
  }

  function CustomAttributeName(helpers: Helpers, name: string): string
  {
    "custom" + helpers.upperFirst(name)
  }

  /** A setter made by `createSetFontSize`: the attribute it writes and its custom twin. */
  datatype Setter = Setter(attributeName: string, customAttributeName: string)

  /**
   * `createSetters`: one setter per attribute of the font-size map, stored
   * under `set` + the attribute name with its first letter upper-cased.
   */
  method CreateSetters(fontSizeMap: map<string, string>, helpers: Helpers) returns (setters: map<string, Setter>)
    ensures forall name :: name in fontSizeMap ==> SetterName(helpers, name) in setters
    ensures forall s :: s in setters ==>
              exists name :: name in fontSizeMap && s == SetterName(helpers, name)
                             && setters[s] == Setter(name, CustomAttributeName(helpers, name))
  {
    setters := map[];
    var pending := fontSizeMap.Keys;
    while pending != {}
      invariant pending <= fontSizeMap.Keys
      invariant forall name :: name in fontSizeMap && name !in pending ==> SetterName(helpers, name) in setters
      invariant forall s :: s in setters ==>
                  exists name :: name in fontSizeMap && s == SetterName(helpers, name)
                                 && setters[s] == Setter(name, CustomAttributeName(helpers, name))
      decreases pending
    {
      var name :| name in pending;
      setters := setters[SetterName(helpers, name) := Setter(name, CustomAttributeName(helpers, name))];
      pending := pending - {name};
    }
  }

  /**
   * When `upperFirst` tells the attribute names apart, every attribute has its
   * own setter, writing that attribute and its custom twin.
   */
  lemma SettersOneToOne(fontSizeMap: map<string, string>, helpers: Helpers, setters: map<string, Setter>, name: string)
    requires forall a, b :: a in fontSizeMap && b in fontSizeMap && helpers.upperFirst(a) == helpers.upperFirst(b) ==> a == b
    requires forall s :: s in setters ==>
               exists name :: name in fontSizeMap && s == SetterName(helpers, name)
                              && setters[s] == Setter(name, CustomAttributeName(helpers, name))
    requires name in fontSizeMap && SetterName(helpers, name) in setters
    ensures setters[SetterName(helpers, name)] == Setter(name, CustomAttributeName(helpers, name))
  {
    var s := SetterName(helpers, name);
    var other :| other in fontSizeMap && s == SetterName(helpers, other)
                 && setters[s] == Setter(other, CustomAttributeName(helpers, other));
    assert helpers.upperFirst(other) == s[3..] == helpers.upperFirst(name);
  }

  /** A preset's slug counts only when it is set and not empty. */
  predicate HasSlug(preset: FontSizePreset)
  {
    preset.slug.Some? && preset.slug.value != ""
  }

  /** `find( presets, { size: value } )` from position `from`: the index of the first preset of that size. */
  function FindBySize(presets: seq<FontSizePreset>, value: Option<int>, from: nat): (r: Option<nat>)
    requires from <= |presets|
    ensures r.Some? ==> from <= r.value < |presets| && Some(presets[r.value].size) == value
    ensures r.Some? ==> forall j :: from <= j < r.value ==> Some(presets[j].size) != value
    ensures r.None? ==> forall j :: from <= j < |presets| ==> Some(presets[j].size) != value
    decreases |presets| - from
  {
    if from == |presets| then None
    else if Some(presets[from].size) == value then Some(from)
    else FindBySize(presets, value, from + 1)
  }

  /** The attributes one setter call writes: the preset slug or, failing that, the raw size. */
  datatype FontSizeChange = FontSizeChange(
    attributeName: string, slug: Option<string>,
    customAttributeName: string, customSize: Option<int>)

  /**
   * `createSetFontSize`'s setter applied to `value` (`None` for a cleared size):
   * when the first preset of that size has a slug, write the slug and clear the
   * custom attribute; otherwise clear the attribute and write the value as custom.
   */
  function SetFontSize(setter: Setter, presets: seq<FontSizePreset>, value: Option<int>): (change: FontSizeChange)
    ensures change.attributeName == setter.attributeName
    ensures change.customAttributeName == setter.customAttributeName
    ensures change.slug.Some? ==> change.customSize.None?
    ensures change.slug.None? ==> change.customSize == value
    ensures forall i :: 0 <= i < |presets| && Some(presets[i].size) == value
                        && (forall j :: 0 <= j < i ==> Some(presets[j].size) != value) ==>
              change.slug == (if HasSlug(presets[i]) then presets[i].slug else None)
    ensures (forall i :: 0 <= i < |presets| ==> Some(presets[i].size) != value) ==>
              change.slug == None && change.customSize == value
  {
    var found := FindBySize(presets, value, 0);
    if found.Some? && HasSlug(presets[found.value]) then
      FontSizeChange(setter.attributeName, presets[found.value].slug, setter.customAttributeName, None)
    else
      FontSizeChange(setter.attributeName, None, setter.customAttributeName, value)
  }

  /** One entry of the derived state: the resolved font size plus its CSS class. */
  datatype FontSizeState = FontSizeState(fontSize: FontSizeObject, className: Option<Value>)

  function Lookup(attributes: Attributes, key: string): Option<Value>
  {
    if key in attributes then Some(attributes[key]) else None
  }

  /** What `getFontSize` resolves the attribute `name` and its custom twin to. */
  function Resolved(name: string, attributes: Attributes, presets: seq<FontSizePreset>, helpers: Helpers)
    : FontSizeObject
  {
    helpers.getFontSize(presets, Lookup(attributes, name), Lookup(attributes, CustomAttributeName(helpers, name)))
  }

  /**
   * The derived entry for attribute `name` with context `context`: the previous
   * entry when it has the same size as the newly resolved one, else the
   * resolved object with its class (the attribute itself when it is falsy).
   */
  function DerivedEntry(context: string, name: string, attributes: Attributes, presets: seq<FontSizePreset>,
                        previousState: map<string, FontSizeState>, helpers: Helpers): (entry: FontSizeState)
    ensures entry.fontSize.size == Resolved(name, attributes, presets, helpers).size
    ensures name in previousState && previousState[name].fontSize.size == Resolved(name, attributes, presets, helpers).size
            ==> entry == previousState[name]
    ensures !(name in previousState && previousState[name].fontSize.size == Resolved(name, attributes, presets, helpers).size)
            ==> && entry.fontSize == Resolved(name, attributes, presets, helpers)
                && (!Truthy(Lookup(attributes, name)) ==> entry.className == Lookup(attributes, name))
                && (Truthy(Lookup(attributes, name)) ==>
                      entry.className == Some(Str(helpers.getFontSizeClass(context, attributes[name]))))
  {
    var attribute := Lookup(attributes, name);
    var resolved := Resolved(name, attributes, presets, helpers);
    if name in previousState && previousState[name].fontSize.size == resolved.size then previousState[name]
    else
      var className := if Truthy(attribute) then Some(Str(helpers.getFontSizeClass(context, attribute.value))) else attribute;
      FontSizeState(resolved, className)
  }

  /** The state `getDerivedStateFromProps` computes: one entry per attribute of the font-size map. */
  function DerivedState(fontSizeMap: map<string, string>, attributes: Attributes, presets: seq<FontSizePreset>,
                        previousState: map<string, FontSizeState>, helpers: Helpers): (state: map<string, FontSizeState>)
    ensures state.Keys == fontSizeMap.Keys
  {
    map name | name in fontSizeMap :: DerivedEntry(fontSizeMap[name], name, attributes, presets, previousState, helpers)
  }

  /** `getDerivedStateFromProps`: builds the new state attribute by attribute. */
  method GetDerivedStateFromProps(fontSizeMap: map<string, string>, attributes: Attributes,
                                  presets: seq<FontSizePreset>, previousState: map<string, FontSizeState>,
                                  helpers: Helpers) returns (newState: map<string, FontSizeState>)
    ensures newState == DerivedState(fontSizeMap, attributes, presets, previousState, helpers)
  {
    newState := map[];
    var pending := fontSizeMap.Keys;
    while pending != {}
      invariant pending <= fontSizeMap.Keys
      invariant newState.Keys == fontSizeMap.Keys - pending
      invariant forall name :: name in newState ==>
                  newState[name] == DerivedEntry(fontSizeMap[name], name, attributes, presets, previousState, helpers)
      decreases pending
    {
      var name :| name in pending;
      var context := fontSizeMap[name];
      var attribute := Lookup(attributes, name);
      var fontSize := helpers.getFontSize(presets, attribute, Lookup(attributes, CustomAttributeName(helpers, name)));
      if name in previousState && previousState[name].fontSize.size == fontSize.size {
        newState := newState[name := previousState[name]];
      } else {
        var className := if Truthy(attribute) then Some(Str(helpers.getFontSizeClass(context, attribute.value)))
                         else attribute;
        newState := newState[name := FontSizeState(fontSize, className)];
      }
      pending := pending - {name};
    }
  }

  /**
   * Deriving again from the same props changes nothing: every entry already
   * has the resolved size, so every entry is reused.
   */
  lemma DerivedStateIsStable(fontSizeMap: map<string, string>, attributes: Attributes, presets: seq<FontSizePreset>,
                             previousState: map<string, FontSizeState>, helpers: Helpers)
    ensures var state := DerivedState(fontSizeMap, attributes, presets, previousState, helpers);
            DerivedState(fontSizeMap, attributes, presets, state, helpers) == state
  {
  }
}
