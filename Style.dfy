/** Console styles: a style is nothing, a text or background color, an emphasis
    attribute, or a list of styles applied in order. Styles are looked up by name in a
    table of aliases (see StyleTable.dfy), composed with the `of` overloads, and built up
    in a StyleList. Rendering to ANSI escape sequences is not modelled. */
module Styles {
  import opened Wrappers

  /** The console colors. */
  datatype Color = Black | Red | Green | Yellow | Blue | Magenta | Cyan | White | Default

  /** The console attributes the styles use. */
  datatype Attribute = Reset | IntensityBold | IntensityFaint | Italic | Underline | BlinkSlow | NegativeOn |
                       ConcealOn | StrikethroughOn

  /** A style; Composite is the contents of a StyleList. */
  datatype Style =
    | NoStyle
    | Hue(color: Color, background: bool, bright: bool)
    | Emphasis(attribute: Attribute)
    | Composite(styles: seq<Style>)

  const CorePlain := Emphasis(Reset)
  const CoreBold := Emphasis(IntensityBold)
  const CoreItalic := Emphasis(Italic)
  const CoreFaint := Emphasis(IntensityFaint)
  const CoreBoldItalic := Composite([CoreBold, CoreItalic])
  const CoreNegative := Emphasis(NegativeOn)

  /** named(name, required): an unknown name is an error when required and no style
      otherwise; a known name gives its style, or no style when styles are disabled. */
  function Named(styles: map<string, Style>, name: string, required: bool, enabled: bool): (r: Result<Style, string>)
    ensures r.Err? <==> required && name !in styles
    ensures r.Err? ==> r.error == "Unknown style: " + name
    ensures r.Ok? && r.value != NoStyle ==> enabled && name in styles && r.value == styles[name]
    ensures !enabled || name !in styles ==> r.Ok? ==> r.value == NoStyle
    ensures enabled && name in styles ==> r == Ok(styles[name])
  {
    if name !in styles then
      if required then Err("Unknown style: " + name) else Ok(NoStyle)
    else Ok(if enabled then styles[name] else NoStyle)
  }

  /** named(name): never fails, as it does not require the name. */
  function NamedOrNone(styles: map<string, Style>, name: string, enabled: bool): (s: Style)
    ensures Named(styles, name, false, enabled) == Ok(s)
  {
    if name in styles && enabled then styles[name] else NoStyle
  }

  /** of(names...): no style for no names, the named style for one, and the list of the
      named styles, in order, for several. */
  function OfNames(styles: map<string, Style>, names: seq<string>, enabled: bool): (s: Style)
    ensures |names| == 0 ==> s == NoStyle
    ensures |names| == 1 ==> s == NamedOrNone(styles, names[0], enabled)
    ensures |names| >= 2 ==>
      s.Composite? && |s.styles| == |names| &&
      forall i :: 0 <= i < |names| ==> s.styles[i] == NamedOrNone(styles, names[i], enabled)
  {
    if |names| == 0 then NoStyle
    else if |names| == 1 then NamedOrNone(styles, names[0], enabled)
    else Composite(seq(|names|, i requires 0 <= i < |names| => NamedOrNone(styles, names[i], enabled)))
  }

  /** of(attributes...): no style, one emphasis, or the list of emphases. */
  function OfAttributes(attributes: seq<Attribute>): (s: Style)
    ensures |attributes| == 0 ==> s == NoStyle
    ensures |attributes| == 1 ==> s == Emphasis(attributes[0])
    ensures |attributes| >= 2 ==>
      s.Composite? && |s.styles| == |attributes| &&
      forall i :: 0 <= i < |attributes| ==> s.styles[i] == Emphasis(attributes[i])
  {
    if |attributes| == 0 then NoStyle
    else if |attributes| == 1 then Emphasis(attributes[0])
    else Composite(seq(|attributes|, i requires 0 <= i < |attributes| => Emphasis(attributes[i])))
  }

  /** of(styles...): no style, the one style itself, or the list of the styles. */
  function OfStyles(styles: seq<Style>): (s: Style)
    ensures |styles| == 0 ==> s == NoStyle
    ensures |styles| == 1 ==> s == styles[0]
    ensures |styles| >= 2 ==> s == Composite(styles)
  {
    if |styles| == 0 then NoStyle
    else if |styles| == 1 then styles[0]
    else Composite(styles)
  }

  /** of(color, background, bright). */
  function OfColor(color: Color, background: bool, bright: bool): (s: Style)
    ensures s.Hue? && s.color == color && s.background == background && s.bright == bright
  {
    Hue(color, background, bright)
  }

  const Escape: char := '\U{1B}'

  /** Whether an escape sequence starts at position i. */
  predicate EscapeAt(text: string, i: int) {
    0 <= i && i + 1 < |text| && text[i] == Escape && text[i + 1] == '['
  }

  /** Whether the text contains ESC followed by '['. */
  function ContainsEscape(text: string): (r: bool)
    ensures r <==> exists i :: EscapeAt(text, i)
    decreases |text|
  {
    if |text| < 2 then false
    else if text[0] == Escape && text[1] == '[' then
      assert EscapeAt(text, 0);
      true
    else
      var r := ContainsEscape(text[1..]);
      assert r <==> exists i :: EscapeAt(text, i) by {
        if r {
          var i :| EscapeAt(text[1..], i);
          assert EscapeAt(text, i + 1);
        }
        if exists i :: EscapeAt(text, i) {
          var i :| EscapeAt(text, i);
          assert i != 0 && EscapeAt(text[1..], i - 1);
        }
      }
      r
  }

  /** isStyled: a present text that contains the start of an ANSI escape sequence. */
  function IsStyled(text: Option<string>): (r: bool)
    ensures r <==> text.Some? && exists i :: EscapeAt(text.value, i)
  {
    text.Some? && ContainsEscape(text.value)
  }

  /** A list of styles built up in place. */
  class StyleList {
    var styles: seq<Style>

    constructor()
      ensures styles == []
    {
      styles := [];
    }

    /** StyleList(names...): the named styles, in order. */
    constructor FromNames(table: map<string, Style>, names: seq<string>, enabled: bool)
      ensures |styles| == |names| && forall i :: 0 <= i < |names| ==> styles[i] == NamedOrNone(table, names[i], enabled)
    {
      styles := [];
      new;
      for i := 0 to |names|
        invariant |styles| == i && forall k :: 0 <= k < i ==> styles[k] == NamedOrNone(table, names[k], enabled)
      {
        AddName(table, names[i], enabled);
      }
    }

    /** StyleList(attributes...): an emphasis per attribute, in order. */
    constructor FromAttributes(attributes: seq<Attribute>)
      ensures |styles| == |attributes| && forall i :: 0 <= i < |attributes| ==> styles[i] == Emphasis(attributes[i])
    {
      styles := [];
      new;
      for i := 0 to |attributes|
        invariant |styles| == i && forall k :: 0 <= k < i ==> styles[k] == Emphasis(attributes[k])
      {
        AddAttribute(attributes[i]);
      }
    }

    /** StyleList(styles...): the styles, in order. */
    constructor FromStyles(from: seq<Style>)
      ensures styles == from
    {
      styles := [];
      new;
      for i := 0 to |from|
        invariant styles == from[..i]
      {
        Add(from[i]);
        assert from[..i + 1] == from[..i] + [from[i]];
      }
    }

    /** The list as a style. */
    function AsStyle(): Style
      reads this
    {
      Composite(styles)
    }

    function Size(): nat
      reads this
    {
      |styles|
    }

    method Add(style: Style)
      modifies this
      ensures styles == old(styles) + [style]
    {
      styles := styles + [style];
    }

    method AddName(table: map<string, Style>, name: string, enabled: bool)
      modifies this
      ensures styles == old(styles) + [NamedOrNone(table, name, enabled)]
    {
      Add(NamedOrNone(table, name, enabled));
    }

    method AddAttribute(attribute: Attribute)
      modifies this
      ensures styles == old(styles) + [Emphasis(attribute)]
    {
      Add(Emphasis(attribute));
    }

    /** pop: remove and return the last style; an empty list gives no style and stays empty. */
    method Pop() returns (style: Style)
      modifies this
      ensures old(styles) == [] ==> style == NoStyle && styles == []
      ensures old(styles) != [] ==> old(styles) == styles + [style]
    {
      if styles == [] {
        style := NoStyle;
      } else {
        style := styles[|styles| - 1];
        styles := styles[..|styles| - 1];
      }
    }
  }
}
