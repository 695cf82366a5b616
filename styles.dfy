/** The light and dark style tables and how the theme is chosen. A style is a
    map from property names to values; a table maps style names (container,
    card, ...) to styles. StyleSheet.create is taken as the identity. */
module Styles {

  /** Style property values: the source uses only integers and strings. */
  datatype Value = Num(n: int) | Str(s: string)

  /** The style names of the tables. */
  datatype Name = Container | Header | Heading | Input | List | Card | Image | ImageLarge
                | ProductName | Price | SubHeading | Text

  /** The style properties the tables set. */
  datatype Prop = Flex | BackgroundColor | PaddingTop | FlexDirection | JustifyContent | Padding
                | FontSize | FontWeight | Margin | BorderRadius | BorderColor | BorderWidth
                | PaddingHorizontal | MarginBottom | Height | MarginVertical | Color | MarginHorizontal

  type Style = map<Prop, Value>
  type Table = map<Name, Style>

  /** JavaScript's object spread {...base, ...over}: every property of over, and
      every property of base that over does not redefine. */
  function Spread<K, V>(base: map<K, V>, over: map<K, V>): (r: map<K, V>)
    ensures r.Keys == base.Keys + over.Keys
    ensures forall k :: k in over ==> r[k] == over[k]
    ensures forall k :: k in base && k !in over ==> r[k] == base[k]
  {
    base + over
  }

  /** base[name] read as a spread source: a missing style spreads as {}. */
  function StyleOf(base: Table, name: Name): Style {
    if name in base then base[name] else map[]
  }

  /** The dark table built as the source builds it: every style of base, and for
      each overridden style name, that style of base spread with its overrides. */
  function DeriveDark(base: Table, overrides: Table): (r: Table)
    ensures r.Keys == base.Keys + overrides.Keys
    ensures forall name :: name in base && name !in overrides ==> r[name] == base[name]
    ensures forall name, p :: name in overrides && p in overrides[name] ==>
      p in r[name] && r[name][p] == overrides[name][p]
    ensures forall name, p :: name in base && name in overrides && p in base[name] && p !in overrides[name] ==>
      p in r[name] && r[name][p] == base[name][p]
    ensures forall name :: name in overrides ==> r[name].Keys == StyleOf(base, name).Keys + overrides[name].Keys
  {
    Spread(base, map name | name in overrides :: Spread(StyleOf(base, name), overrides[name]))
  }

  /** Every style name of the light table. */
  const AllNames: set<Name> := {Container, Header, Heading, Input, List, Card, Image, ImageLarge,
                                ProductName, Price, SubHeading, Text}

  /** The style names the dark table redefines. */
  const OverriddenNames: set<Name> := {Container, Heading, Card, ProductName, Price, SubHeading, Input, Text}

  /** Each light style (App.js:127-146). */
  function LightStyle(name: Name): Style {
    match name
    case Container => map[Flex := Num(1), BackgroundColor := Str("#f2f2f2"), PaddingTop := Num(40)]
    case Header => map[FlexDirection := Str("row"), JustifyContent := Str("space-between"), Padding := Num(10)]
    case Heading => map[FontSize := Num(22), FontWeight := Str("bold")]
    case Input => map[BackgroundColor := Str("#fff"), Margin := Num(10), Padding := Num(10),
                      BorderRadius := Num(8), BorderColor := Str("#ccc"), BorderWidth := Num(1)]
    case List => map[PaddingHorizontal := Num(10)]
    case Card => map[BackgroundColor := Str("#fff"), Padding := Num(15), BorderRadius := Num(10), MarginBottom := Num(10)]
    case Image => map[Height := Num(150), BorderRadius := Num(10)]
    case ImageLarge => map[Height := Num(250), Margin := Num(10), BorderRadius := Num(10)]
    case ProductName => map[FontSize := Num(18), FontWeight := Str("600"), MarginVertical := Num(5)]
    case Price => map[FontSize := Num(16), Color := Str("green"), MarginBottom := Num(5)]
    case SubHeading => map[FontSize := Num(16), Margin := Num(10), FontWeight := Str("bold")]
    case Text => map[FontSize := Num(14), MarginHorizontal := Num(10)]
  }

  /** The properties the dark table sets on each overridden style (App.js:150-157). */
  function DarkOverride(name: Name): Style {
    match name
    case Container => map[BackgroundColor := Str("#1a1a1a")]
    case Heading => map[Color := Str("#fff")]
    case Card => map[BackgroundColor := Str("#333")]
    case ProductName => map[Color := Str("#fff")]
    case Price => map[Color := Str("#ccc")]
    case SubHeading => map[Color := Str("#fff")]
    case Input => map[BackgroundColor := Str("#333"), Color := Str("#fff"), BorderColor := Str("#666")]
    case Text => map[Color := Str("#ccc")]
    case _ => map[]
  }

  /** The light table. */
  const LightStyles: Table := map name | name in AllNames :: LightStyle(name)

  /** The override table spread over the light table to build the dark one. */
  const DarkOverrides: Table := map name | name in OverriddenNames :: DarkOverride(name)

  /** The dark table (App.js:148-158). */
  const DarkStyles: Table := DeriveDark(LightStyles, DarkOverrides)

  /** The style names the dark table takes unchanged from the light one. */
  const Inherited: set<Name> := {Header, List, Image, ImageLarge}

  /** The table in use for the given theme flag (App.js:48). Whatever the flag,
      it has the light table's style names and keeps every light property the
      dark table does not redefine; with the flag on, every dark override is in
      force and no property beyond the light ones and the overrides is set;
      with it off the table is the light one. */
  function Resolve(darkMode: bool): (t: Table)
    ensures t.Keys == LightStyles.Keys
    ensures forall name :: name in LightStyles && name !in DarkOverrides ==> t[name] == LightStyles[name]
    ensures !darkMode ==> t == LightStyles
    ensures darkMode ==> forall name, p :: name in DarkOverrides && p in DarkOverrides[name] ==>
      p in t[name] && t[name][p] == DarkOverrides[name][p]
    ensures darkMode ==> forall name, p :: name in t && p in t[name] ==>
      p in LightStyles[name] || (name in DarkOverrides && p in DarkOverrides[name])
    ensures forall name, p :: (name in LightStyles && p in LightStyles[name] &&
      (name !in DarkOverrides || p !in DarkOverrides[name])) ==>
      p in t[name] && t[name][p] == LightStyles[name][p]
  {
    if darkMode then DarkStyles else LightStyles
  }

  /** Every style name the dark table overrides is one of the light table's. */
  lemma OverridesWithinLight()
    ensures DarkOverrides.Keys <= LightStyles.Keys
    ensures LightStyles.Keys - DarkOverrides.Keys == Inherited
  {
    forall name ensures name in LightStyles.Keys - DarkOverrides.Keys <==> name in Inherited {
      assert name in LightStyles <==> name in AllNames;
      assert name in DarkOverrides <==> name in OverriddenNames;
      match name
      case Header =>
      case List =>
      case Image =>
      case ImageLarge =>
      case Container =>
      case Heading =>
      case Input =>
      case Card =>
      case ProductName =>
      case Price =>
      case SubHeading =>
      case Text =>
    }
  }

  /** Each dark style is the light style spread with its overrides (none for a
      style the dark table does not redefine). */
  lemma DarkStyleAt(name: Name)
    ensures name in DarkStyles
    ensures DarkStyles[name] == LightStyle(name) + DarkOverride(name)
  {
    var inner := map n | n in DarkOverrides :: Spread(StyleOf(LightStyles, n), DarkOverrides[n]);
    assert DarkStyles == Spread(LightStyles, inner);
    assert name in LightStyles;
    if name in DarkOverrides {
      assert DarkStyles[name] == inner[name];
    } else {
      assert DarkStyles[name] == LightStyle(name);
      assert DarkOverride(name) == map[] by {
        match name
        case Header =>
        case List =>
        case Image =>
        case ImageLarge =>
      }
      assert LightStyle(name) + map[] == LightStyle(name);
    }
  }

  /** Each override really changes its light style: it either sets a property
      the light style lacks or gives one a different value. */
  lemma OverrideChanges(name: Name)
    requires name in OverriddenNames
    ensures LightStyle(name) + DarkOverride(name) != LightStyle(name)
  {
    var light, over := LightStyle(name), DarkOverride(name);
    match name
    case Container => assert (light + over)[BackgroundColor] != light[BackgroundColor];
    case Card => assert (light + over)[BackgroundColor] != light[BackgroundColor];
    case Input => assert (light + over)[BackgroundColor] != light[BackgroundColor];
    case Price => assert (light + over)[Color] != light[Color];
    case Heading => assert Color in light + over && Color !in light;
    case ProductName => assert Color in light + over && Color !in light;
    case SubHeading => assert Color in light + over && Color !in light;
    case Text => assert Color in light + over && Color !in light;
  }

  /** The dark table has the same style names as the light table; exactly the
      header, list, image and imageLarge styles are identical in both. */
  lemma DarkDiffersExactlyOnOverrides()
    ensures DarkStyles.Keys == LightStyles.Keys
    ensures forall name :: name in LightStyles ==> (DarkStyles[name] == LightStyles[name] <==> name in Inherited)
  {
    OverridesWithinLight();
    forall name | name in LightStyles
      ensures DarkStyles[name] == LightStyles[name] <==> name in Inherited
    {
      DarkStyleAt(name);
      if name in OverriddenNames {
        OverrideChanges(name);
      }
    }
  }

  /** The dark container keeps the light flex and paddingTop and only changes
      its background. */
  lemma DarkContainer()
    ensures DarkStyles[Container] == map[Flex := Num(1), BackgroundColor := Str("#1a1a1a"), PaddingTop := Num(40)]
  {
    DarkStyleAt(Container);
    SpreadContainer();
  }

  /** The light container spread with its dark override, written out. */
  lemma SpreadContainer()
    ensures LightStyle(Container) + DarkOverride(Container) ==
      map[Flex := Num(1), BackgroundColor := Str("#1a1a1a"), PaddingTop := Num(40)]
  {
  }

  /** The dark input keeps the light margin, padding, radius and border width,
      and takes its background, text and border colours from the overrides. */
  lemma DarkInput()
    ensures DarkStyles[Input] == map[BackgroundColor := Str("#333"), Margin := Num(10), Padding := Num(10),
      BorderRadius := Num(8), BorderColor := Str("#666"), BorderWidth := Num(1), Color := Str("#fff")]
  {
    DarkStyleAt(Input);
    SpreadInput();
  }

  /** The spread of the input overrides over the light input, written out. */
  lemma SpreadInput()
    ensures LightStyle(Input) + DarkOverride(Input) ==
      map[BackgroundColor := Str("#333"), Margin := Num(10), Padding := Num(10),
          BorderRadius := Num(8), BorderColor := Str("#666"), BorderWidth := Num(1), Color := Str("#fff")]
  {
  }
}
