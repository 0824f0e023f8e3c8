/** Colour overrides of the Microba component library: a component's own
    override map takes precedence over the map registered for the current
    look-and-feel; a value found there is a colour, or a key resolved through
    the UI defaults. How the UI defaults resolve a key, and which
    look-and-feel is current, are inputs. */
module MicrobaColors {
  import opened Wrappers

  datatype Color = Color(rgb: int)

  /** A value of an override map: a Color, or a key of the UI defaults. */
  datatype OverrideValue = ColorValue(color: Color) | KeyValue(key: string)

  type ColorMap = map<string, OverrideValue>

  /** The table from look-and-feel IDs to override maps; an entry may hold
      null. */
  type OverrideTable = map<string, Option<ColorMap>>

  /** A found value as a colour: a Color is returned as it is, anything else
      goes through UIManager.getColor. */
  function Resolve(v: OverrideValue, uiColor: string -> Option<Color>): (r: Option<Color>)
    ensures v.ColorValue? ==> r == Some(v.color)
    ensures v.KeyValue? ==> r == uiColor(v.key)
  {
    match v
    case ColorValue(c) => Some(c)
    case KeyValue(k) => uiColor(k)
  }

  /** HashMap.get on the table: null for an ID without an entry. */
  function OverrideMapFor(table: OverrideTable, lookAndFeel: string): Option<ColorMap>
  {
    if lookAndFeel in table then table[lookAndFeel] else None
  }

  predicate Overrides(m: Option<ColorMap>, colorConstant: string)
  {
    m.Some? && colorConstant in m.value
  }

  /** getOverridenColor(colorConstant, component). */
  function OverridenColor(table: OverrideTable, componentMap: Option<ColorMap>, currentLookAndFeel: string,
                          uiColor: string -> Option<Color>, colorConstant: string): (r: Option<Color>)
    ensures Overrides(componentMap, colorConstant) ==>
              r == Resolve(componentMap.value[colorConstant], uiColor)
    ensures !Overrides(componentMap, colorConstant) && Overrides(OverrideMapFor(table, currentLookAndFeel), colorConstant) ==>
              r == Resolve(OverrideMapFor(table, currentLookAndFeel).value[colorConstant], uiColor)
    ensures !Overrides(componentMap, colorConstant) && !Overrides(OverrideMapFor(table, currentLookAndFeel), colorConstant) ==>
              r == None
  {
    if componentMap.Some? && colorConstant in componentMap.value then
      var val := componentMap.value[colorConstant];
      if val.ColorValue? then Some(val.color) else uiColor(val.key)
    else
      var overrides := OverrideMapFor(table, currentLookAndFeel);
      if overrides.Some? && colorConstant in overrides.value then
        var val := overrides.value[colorConstant];
        if val.ColorValue? then Some(val.color) else uiColor(val.key)
      else None
  }

  /** getOverridenColor(colorConstant, component, defaultColor). */
  function OverridenColorOr(table: OverrideTable, componentMap: Option<ColorMap>, currentLookAndFeel: string,
                            uiColor: string -> Option<Color>, colorConstant: string,
                            defaultColor: Option<Color>): (r: Option<Color>)
    ensures var overriden := OverridenColor(table, componentMap, currentLookAndFeel, uiColor, colorConstant);
            (overriden.Some? ==> r == overriden) && (overriden.None? ==> r == defaultColor)
  {
    var overriden := OverridenColor(table, componentMap, currentLookAndFeel, uiColor, colorConstant);
    if overriden.Some? then overriden else defaultColor
  }

  // ---------------------------------------------------------------------------
  // The lookup as a precedence list

  /** The value of the first map in `maps` that overrides the constant. */
  function FirstOverride(maps: seq<Option<ColorMap>>, colorConstant: string): (r: Option<OverrideValue>)
    ensures r.None? <==> forall i :: 0 <= i < |maps| ==> !Overrides(maps[i], colorConstant)
  {
    if maps == [] then None
    else if Overrides(maps[0], colorConstant) then Some(maps[0].value[colorConstant])
    else FirstOverride(maps[1..], colorConstant)
  }

  /** The first overriding map is the one at index `i` when every earlier map
      lacks the constant. */
  lemma {:induction false} FirstOverrideAt(maps: seq<Option<ColorMap>>, colorConstant: string, i: nat)
    requires i < |maps| && Overrides(maps[i], colorConstant)
    requires forall j :: 0 <= j < i ==> !Overrides(maps[j], colorConstant)
    ensures FirstOverride(maps, colorConstant) == Some(maps[i].value[colorConstant])
  {
    if i > 0 {
      assert forall j :: 0 <= j < i - 1 ==> maps[1..][j] == maps[j + 1];
      FirstOverrideAt(maps[1..], colorConstant, i - 1);
    }
  }

  /** The lookup is the first of the component's map and the look-and-feel's
      map that overrides the constant, resolved; null when neither does. */
  lemma LookupIsPrecedence(table: OverrideTable, componentMap: Option<ColorMap>, currentLookAndFeel: string,
                           uiColor: string -> Option<Color>, colorConstant: string)
    ensures var first := FirstOverride([componentMap, OverrideMapFor(table, currentLookAndFeel)], colorConstant);
            OverridenColor(table, componentMap, currentLookAndFeel, uiColor, colorConstant) ==
            if first.Some? then Resolve(first.value, uiColor) else None
  {
    var maps := [componentMap, OverrideMapFor(table, currentLookAndFeel)];
    if Overrides(componentMap, colorConstant) {
      FirstOverrideAt(maps, colorConstant, 0);
    } else if Overrides(maps[1], colorConstant) {
      FirstOverrideAt(maps, colorConstant, 1);
    }
  }

  /** A constant the component overrides is answered by the component alone,
      even when it resolves to null: the look-and-feel table is not looked
      at. */
  lemma ComponentOverrideShadowsTable(table1: OverrideTable, table2: OverrideTable, componentMap: Option<ColorMap>,
                                      lookAndFeel1: string, lookAndFeel2: string,
                                      uiColor: string -> Option<Color>, colorConstant: string)
    requires Overrides(componentMap, colorConstant)
    ensures OverridenColor(table1, componentMap, lookAndFeel1, uiColor, colorConstant) ==
            OverridenColor(table2, componentMap, lookAndFeel2, uiColor, colorConstant)
  {
  }

  /** The lookup yields null exactly when no map overrides the constant or
      the override is a key the UI defaults hold no colour for; the default
      colour is returned exactly then. */
  lemma NullWhenNotOverriden(table: OverrideTable, componentMap: Option<ColorMap>, currentLookAndFeel: string,
                             uiColor: string -> Option<Color>, colorConstant: string, defaultColor: Option<Color>)
    ensures var first := FirstOverride([componentMap, OverrideMapFor(table, currentLookAndFeel)], colorConstant);
            var unresolved := first.None? || (first.value.KeyValue? && uiColor(first.value.key).None?);
            && (OverridenColor(table, componentMap, currentLookAndFeel, uiColor, colorConstant).None? <==> unresolved)
            && (unresolved ==> OverridenColorOr(table, componentMap, currentLookAndFeel, uiColor, colorConstant, defaultColor) == defaultColor)
            && (!unresolved ==> OverridenColorOr(table, componentMap, currentLookAndFeel, uiColor, colorConstant, defaultColor) ==
                                Resolve(first.value, uiColor))
  {
    LookupIsPrecedence(table, componentMap, currentLookAndFeel, uiColor, colorConstant);
  }

  // ---------------------------------------------------------------------------
  // The static table

  /** A registration for a look-and-feel is what lookups under that
      look-and-feel see; lookups under any other are unaffected. */
  lemma RegistrationScope(table: OverrideTable, lookAndFeel: string, overrides: Option<ColorMap>,
                          componentMap: Option<ColorMap>, current: string,
                          uiColor: string -> Option<Color>, colorConstant: string)
    ensures OverrideMapFor(table[lookAndFeel := overrides], lookAndFeel) == overrides
    ensures current != lookAndFeel ==>
              OverridenColor(table[lookAndFeel := overrides], componentMap, current, uiColor, colorConstant) ==
              OverridenColor(table, componentMap, current, uiColor, colorConstant)
    ensures !Overrides(componentMap, colorConstant) && Overrides(overrides, colorConstant) ==>
              OverridenColor(table[lookAndFeel := overrides], componentMap, lookAndFeel, uiColor, colorConstant) ==
              Resolve(overrides.value[colorConstant], uiColor)
    ensures overrides.None? && !Overrides(componentMap, colorConstant) ==>
              OverridenColor(table[lookAndFeel := overrides], componentMap, lookAndFeel, uiColor, colorConstant) == None
  {
  }

  /** Microba's static state: the look-and-feel override table. */
  class Microba {
    var lookAndFeelToOverride: OverrideTable

    constructor ()
      ensures lookAndFeelToOverride == map[]
    {
      lookAndFeelToOverride := map[];
    }

    /** setColorOverrideMap: the entry for `lookAndFeel` becomes `overrides`
        (possibly null); the other entries stay. */
    method SetColorOverrideMap(lookAndFeel: string, overrides: Option<ColorMap>)
      modifies this
      ensures lookAndFeelToOverride == old(lookAndFeelToOverride)[lookAndFeel := overrides]
      ensures OverrideMapFor(lookAndFeelToOverride, lookAndFeel) == overrides
      ensures forall other :: other != lookAndFeel ==>
                OverrideMapFor(lookAndFeelToOverride, other) == OverrideMapFor(old(lookAndFeelToOverride), other)
    {
      lookAndFeelToOverride := lookAndFeelToOverride[lookAndFeel := overrides];
    }
  }
}
