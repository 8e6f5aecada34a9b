/** The table of style names: every text color with its emphasis and brightness aliases,
    every background color, the emphasis names and two names for no style.

    Every key of the table is a word between two runs of marks ('*', '_' or '!'); the
    word is a color name, its upper-case form, or "bg_" and a color name. Decode recovers
    the marks and the word from a key, which is what tells the keys of different colors,
    and of different aliases, apart. */
module StyleTable {
  import opened Wrappers
  import opened Styles

  // ----- Keys -----

  predicate IsMark(ch: char) {
    ch == '*' || ch == '_' || ch == '!'
  }

  predicate Marks(s: string) {
    forall i :: 0 <= i < |s| ==> IsMark(s[i])
  }

  predicate IsLowerLetter(ch: char) {
    'a' <= ch <= 'z'
  }

  /** A non-empty word of lower-case ASCII letters, as the color names are. */
  predicate LowerWord(w: string) {
    |w| > 0 && forall i :: 0 <= i < |w| ==> IsLowerLetter(w[i])
  }

  /** toUpperCase(Locale.ENGLISH) on ASCII letters. */
  function UpperCase(s: string): (r: string)
    ensures |r| == |s|
  {
    seq(|s|, i requires 0 <= i < |s| => if 'a' <= s[i] <= 'z' then (s[i] as int - 32) as char else s[i])
  }

  function LowerCase(s: string): (r: string)
    ensures |r| == |s|
  {
    seq(|s|, i requires 0 <= i < |s| => if 'A' <= s[i] <= 'Z' then (s[i] as int + 32) as char else s[i])
  }

  /** How the word of a key is written. */
  datatype Kind = Lower | Upper | Background

  /** The marks around the word of a key, and how the word is written. */
  datatype Shape = Shape(prefix: string, kind: Kind, suffix: string)

  function Middle(kind: Kind, w: string): string {
    match kind
    case Lower => w
    case Upper => UpperCase(w)
    case Background => "bg_" + w
  }

  /** The key of word w in the given shape. */
  function Key(w: string, shape: Shape): string {
    shape.prefix + Middle(shape.kind, w) + shape.suffix
  }

  /** What Decode recovers from a key. */
  datatype KeyCode = KeyCode(prefix: string, kind: Kind, word: string, suffix: string)

  function LeadingMarks(s: string): (n: nat)
    ensures n <= |s|
  {
    if s != [] && IsMark(s[0]) then 1 + LeadingMarks(s[1..]) else 0
  }

  function TrailingMarks(s: string): (n: nat)
    ensures n <= |s|
  {
    if s != [] && IsMark(s[|s| - 1]) then 1 + TrailingMarks(s[..|s| - 1]) else 0
  }

  /** The kind and the lower-case word of the middle of a key. */
  function Classify(m: string): (Kind, string) {
    if |m| >= 3 && m[..3] == "bg_" then (Background, m[3..])
    else if |m| > 0 && 'A' <= m[0] <= 'Z' then (Upper, LowerCase(m))
    else (Lower, m)
  }

  /** Split a key into its leading marks, its word and its trailing marks. */
  function Decode(key: string): KeyCode {
    var a := LeadingMarks(key);
    var rest := key[a..];
    var b := TrailingMarks(rest);
    var kindWord := Classify(rest[..|rest| - b]);
    KeyCode(key[..a], kindWord.0, kindWord.1, rest[|rest| - b..])
  }

  lemma {:induction false} LeadingMarksOf(p: string, r: string)
    requires Marks(p) && (r == [] || !IsMark(r[0]))
    ensures LeadingMarks(p + r) == |p|
    decreases |p|
  {
    if p != [] {
      assert (p + r)[1..] == p[1..] + r;
      LeadingMarksOf(p[1..], r);
    } else {
      assert p + r == r;
    }
  }

  lemma {:induction false} TrailingMarksOf(r: string, s: string)
    requires Marks(s) && (r == [] || !IsMark(r[|r| - 1]))
    ensures TrailingMarks(r + s) == |s|
    decreases |s|
  {
    if s != [] {
      assert (r + s)[..|r + s| - 1] == r + s[..|s| - 1];
      TrailingMarksOf(r, s[..|s| - 1]);
    } else {
      assert r + s == r;
    }
  }

  /** The middle of a key is classified back into its kind and word. */
  lemma ClassifyMiddle(kind: Kind, w: string)
    requires LowerWord(w)
    ensures Classify(Middle(kind, w)) == (kind, w)
  {
    var m := Middle(kind, w);
    match kind
    case Lower =>
      if |w| >= 3 {
        assert w[..3][2] == w[2];
      }
    case Upper =>
      assert 'A' <= m[0] <= 'Z';
      if |m| >= 3 {
        assert m[..3][0] == m[0];
      }
      assert LowerCase(m) == w;
    case Background =>
      assert m[..3] == "bg_" && m[3..] == w;
  }

  /** Decode recovers the marks, the kind and the word of every key of a lower-case word. */
  lemma DecodeKey(w: string, shape: Shape)
    requires LowerWord(w) && Marks(shape.prefix) && Marks(shape.suffix)
    ensures Decode(Key(w, shape)) == KeyCode(shape.prefix, shape.kind, w, shape.suffix)
  {
    var p, m, s := shape.prefix, Middle(shape.kind, w), shape.suffix;
    var key := Key(w, shape);
    assert |m| > 0 && !IsMark(m[0]) && !IsMark(m[|m| - 1]) by {
      match shape.kind
      case Lower =>
      case Upper =>
      case Background => assert m[0] == 'b' && m[|m| - 1] == w[|w| - 1];
    }
    assert key == p + (m + s);
    LeadingMarksOf(p, m + s);
    assert key[..|p|] == p && key[|p|..] == m + s;
    TrailingMarksOf(m, s);
    assert (m + s)[..|m|] == m && (m + s)[|m|..] == s;
    ClassifyMiddle(shape.kind, w);
  }

  predicate ValidShape(shape: Shape) {
    Marks(shape.prefix) && Marks(shape.suffix)
  }

  /** Keys of different lower-case words differ, whatever their shapes. */
  lemma KeysDiffer(w1: string, s1: Shape, w2: string, s2: Shape)
    requires LowerWord(w1) && LowerWord(w2) && ValidShape(s1) && ValidShape(s2) && w1 != w2
    ensures Key(w1, s1) != Key(w2, s2)
  {
    DecodeKey(w1, s1);
    DecodeKey(w2, s2);
  }

  // ----- The table -----

  /** colorNames(). */
  const ColorNames := ["red", "yellow", "green", "cyan", "blue", "magenta", "white", "black", "default", "bold", "negative"]

  /** The colors the table defines aliases for: every color name except "bold". */
  predicate IsHueName(w: string) {
    w in ColorNames && w != "bold"
  }

  /** Color.valueOf of the upper-cased name. */
  function ColorNamed(w: string): Color
    requires IsHueName(w) && w != "negative"
  {
    if w == "red" then Red
    else if w == "yellow" then Yellow
    else if w == "green" then Green
    else if w == "cyan" then Cyan
    else if w == "blue" then Blue
    else if w == "magenta" then Magenta
    else if w == "white" then White
    else if w == "black" then Black
    else Default
  }

  /** The color style of a name: "negative" is the negative emphasis whether text or background. */
  function ColorStyle(w: string, background: bool, bright: bool): Style
    requires IsHueName(w)
  {
    if w == "negative" then CoreNegative else OfColor(ColorNamed(w), background, bright)
  }

  /** The text aliases of word w that are not bright. */
  function TextAliases(m: map<string, Style>, w: string, basic: Style): map<string, Style> {
    var upper := UpperCase(w);
    var bold := OfStyles([CoreBold, basic]);
    var italic := OfStyles([CoreItalic, basic]);
    var italicBold := OfStyles([CoreBoldItalic, basic]);
    m[w := basic]
     ["*" + w + "*" := italic]["_" + w + "_" := italic]
     ["**" + w + "**" := bold]["__" + w + "__" := bold][upper := bold]
     ["**_" + w + "_**" := italicBold]["__*" + w + "*__" := italicBold]
     ["_" + upper + "_" := italicBold]["*" + upper + "*" := italicBold]
  }

  /** The bright text aliases of word w: the text aliases followed by '!'. */
  function BrightAliases(m: map<string, Style>, w: string, bright: Style): map<string, Style> {
    var upper := UpperCase(w);
    var boldBright := OfStyles([CoreBold, bright]);
    var italicBright := OfStyles([bright, CoreItalic]);
    var italicBoldBright := OfStyles([CoreBold, CoreItalic, bright]);
    m[w + "!" := bright]
     ["*" + w + "*!" := italicBright]["_" + w + "_!" := italicBright]
     ["**" + w + "**!" := boldBright]["__" + w + "__!" := boldBright][upper + "!" := boldBright]
     ["**_" + w + "_**!" := italicBoldBright]["__*" + w + "*__!" := italicBoldBright]
     ["_" + upper + "_!" := italicBoldBright]["*" + upper + "*!" := italicBoldBright]
  }

  /** The background names of word w, plain and bright. */
  function BackgroundAliases(m: map<string, Style>, w: string, background: Style, backgroundBright: Style): map<string, Style> {
    m["bg_" + w := background]["bg_" + w + "!" := backgroundBright]
  }

  /** The entries one iteration of the color loop puts. */
  function ColorStep(m: map<string, Style>, w: string): map<string, Style>
    requires IsHueName(w)
  {
    var text := TextAliases(m, w, ColorStyle(w, false, false));
    var bright := BrightAliases(text, w, ColorStyle(w, false, true));
    BackgroundAliases(bright, w, ColorStyle(w, true, false), ColorStyle(w, true, true))
  }

  /** The color loop over the given names, skipping "bold". */
  function ColorsStep(m: map<string, Style>, names: seq<string>): map<string, Style>
    requires forall w :: w in names ==> w in ColorNames
    decreases |names|
  {
    if names == [] then m
    else
      var prev := ColorsStep(m, names[..|names| - 1]);
      var w := names[|names| - 1];
      if w == "bold" then prev else ColorStep(prev, w)
  }

  /** The two names of no style, put first. */
  function NoneStep(m: map<string, Style>): map<string, Style> {
    m["none" := NoStyle]["bg_none" := NoStyle]
  }

  /** The bold and italic emphases by name. */
  function EmphasisNames(m: map<string, Style>): map<string, Style> {
    m["bold" := CoreBold]["BOLD" := CoreBold]["italic" := CoreItalic]
  }

  /** The aliases of bold italic. */
  function BoldItalicAliases(m: map<string, Style>): map<string, Style> {
    m["*bold*" := CoreBoldItalic]["_bold_" := CoreBoldItalic]["*BOLD*" := CoreBoldItalic]["_BOLD_" := CoreBoldItalic]
     ["**italic**" := CoreBoldItalic]["__italic__" := CoreBoldItalic]["ITALIC" := CoreBoldItalic]
  }

  /** The other emphases by name. */
  function AttributeNames(m: map<string, Style>): map<string, Style> {
    m["plain" := CorePlain]["faint" := CoreFaint]
     ["underline" := OfAttributes([Underline])]["strikethrough" := OfAttributes([StrikethroughOn])]
     ["blink" := OfAttributes([BlinkSlow])]["conceal" := OfAttributes([ConcealOn])]
  }

  /** The emphasis names and aliases, put after the color loop. */
  function EmphasisStep(m: map<string, Style>): map<string, Style> {
    AttributeNames(BoldItalicAliases(EmphasisNames(m)))
  }

  /** The table stylesByName builds. */
  function Table(): map<string, Style> {
    EmphasisStep(ColorsStep(NoneStep(map[]), ColorNames))
  }
  /** The body of the color loop for one color name: its text aliases, its bright aliases
      and its background names. */
  method PutColor(prev: map<string, Style>, lowerName: string) returns (styles: map<string, Style>)
    requires IsHueName(lowerName)
    ensures styles == ColorStep(prev, lowerName)
  {
    styles := prev;
    var negative := lowerName == "negative";
    var upperName := UpperCase(lowerName);
    var basic := if negative then CoreNegative else OfColor(ColorNamed(lowerName), false, false);
    var bright := if negative then CoreNegative else OfColor(ColorNamed(lowerName), false, true);
    var bold := OfStyles([CoreBold, basic]);
    var italic := OfStyles([CoreItalic, basic]);
    var italicBold := OfStyles([CoreBoldItalic, basic]);
    var boldBright := OfStyles([CoreBold, bright]);
    var italicBright := OfStyles([bright, CoreItalic]);
    var italicBoldBright := OfStyles([CoreBold, CoreItalic, bright]);

    styles := styles[lowerName := basic];

    styles := styles["*" + lowerName + "*" := italic];
    styles := styles["_" + lowerName + "_" := italic];

    styles := styles["**" + lowerName + "**" := bold];
    styles := styles["__" + lowerName + "__" := bold];
    styles := styles[upperName := bold];

    styles := styles["**_" + lowerName + "_**" := italicBold];
    styles := styles["__*" + lowerName + "*__" := italicBold];
    styles := styles["_" + upperName + "_" := italicBold];
    styles := styles["*" + upperName + "*" := italicBold];

    styles := styles[lowerName + "!" := bright];

    styles := styles["*" + lowerName + "*!" := italicBright];
    styles := styles["_" + lowerName + "_!" := italicBright];

    styles := styles["**" + lowerName + "**!" := boldBright];
    styles := styles["__" + lowerName + "__!" := boldBright];
    styles := styles[upperName + "!" := boldBright];

    styles := styles["**_" + lowerName + "_**!" := italicBoldBright];
    styles := styles["__*" + lowerName + "*__!" := italicBoldBright];
    styles := styles["_" + upperName + "_!" := italicBoldBright];
    styles := styles["*" + upperName + "*!" := italicBoldBright];

    styles := styles["bg_" + lowerName := if negative then CoreNegative else OfColor(ColorNamed(lowerName), true, false)];
    styles := styles["bg_" + lowerName + "!" := if negative then CoreNegative else OfColor(ColorNamed(lowerName), true, true)];
  }

  /** stylesByName: the puts in order, the color loop skipping "bold". */
  method StylesByName() returns (styles: map<string, Style>)
    ensures styles == Table()
  {
    styles := map[];
    styles := styles["none" := NoStyle];
    styles := styles["bg_none" := NoStyle];
    for i := 0 to |ColorNames|
      invariant styles == ColorsStep(NoneStep(map[]), ColorNames[..i])
    {
      assert ColorNames[..i + 1][..i] == ColorNames[..i];
      var lowerName := ColorNames[i];
      if lowerName != "bold" {
        styles := PutColor(styles, lowerName);
      }
    }
    assert ColorNames[..|ColorNames|] == ColorNames;

    styles := styles["bold" := CoreBold];
    styles := styles["BOLD" := CoreBold];

    styles := styles["italic" := CoreItalic];

    styles := styles["*bold*" := CoreBoldItalic];
    styles := styles["_bold_" := CoreBoldItalic];
    styles := styles["*BOLD*" := CoreBoldItalic];
    styles := styles["_BOLD_" := CoreBoldItalic];
    styles := styles["**italic**" := CoreBoldItalic];
    styles := styles["__italic__" := CoreBoldItalic];
    styles := styles["ITALIC" := CoreBoldItalic];

    styles := styles["plain" := CorePlain];
    styles := styles["faint" := CoreFaint];
    styles := styles["underline" := OfAttributes([Underline])];
    styles := styles["strikethrough" := OfAttributes([StrikethroughOn])];
    styles := styles["blink" := OfAttributes([BlinkSlow])];
    styles := styles["conceal" := OfAttributes([ConcealOn])];
  }


  // ----- What the table holds -----

  predicate Entry(t: map<string, Style>, k: string, v: Style) {
    k in t && t[k] == v
  }

  /** A map agrees with another at key k. */
  predicate SameAt(m1: map<string, Style>, m2: map<string, Style>, k: string) {
    (k in m1 <==> k in m2) && (k in m1 ==> m1[k] == m2[k])
  }

  /** The text aliases of w name: the style itself plainly; italic between single marks;
      bold between double marks or in upper case; bold and italic between mixed marks or in
      upper case between single marks. */
  ghost predicate HasTextAliases(t: map<string, Style>, w: string, basic: Style) {
    var u := UpperCase(w);
    Entry(t, w, basic) &&
    Entry(t, "*" + w + "*", Composite([CoreItalic, basic])) &&
    Entry(t, "_" + w + "_", Composite([CoreItalic, basic])) &&
    Entry(t, "**" + w + "**", Composite([CoreBold, basic])) &&
    Entry(t, "__" + w + "__", Composite([CoreBold, basic])) &&
    Entry(t, u, Composite([CoreBold, basic])) &&
    Entry(t, "**_" + w + "_**", Composite([CoreBoldItalic, basic])) &&
    Entry(t, "__*" + w + "*__", Composite([CoreBoldItalic, basic])) &&
    Entry(t, "_" + u + "_", Composite([CoreBoldItalic, basic])) &&
    Entry(t, "*" + u + "*", Composite([CoreBoldItalic, basic]))
  }

  /** The bright aliases of w name the bright style, italic after it, and bold before it. */
  ghost predicate HasBrightAliases(t: map<string, Style>, w: string, bright: Style) {
    var u := UpperCase(w);
    Entry(t, w + "!", bright) &&
    Entry(t, "*" + w + "*!", Composite([bright, CoreItalic])) &&
    Entry(t, "_" + w + "_!", Composite([bright, CoreItalic])) &&
    Entry(t, "**" + w + "**!", Composite([CoreBold, bright])) &&
    Entry(t, "__" + w + "__!", Composite([CoreBold, bright])) &&
    Entry(t, u + "!", Composite([CoreBold, bright])) &&
    Entry(t, "**_" + w + "_**!", Composite([CoreBold, CoreItalic, bright])) &&
    Entry(t, "__*" + w + "*__!", Composite([CoreBold, CoreItalic, bright])) &&
    Entry(t, "_" + u + "_!", Composite([CoreBold, CoreItalic, bright])) &&
    Entry(t, "*" + u + "*!", Composite([CoreBold, CoreItalic, bright]))
  }

  ghost predicate HasBackgroundAliases(t: map<string, Style>, w: string, background: Style, backgroundBright: Style) {
    Entry(t, "bg_" + w, background) && Entry(t, "bg_" + w + "!", backgroundBright)
  }

  /** Every alias of color w names the style the color loop gives it. */
  ghost predicate HasColorEntries(t: map<string, Style>, w: string)
    requires IsHueName(w)
  {
    HasTextAliases(t, w, ColorStyle(w, false, false)) &&
    HasBrightAliases(t, w, ColorStyle(w, false, true)) &&
    HasBackgroundAliases(t, w, ColorStyle(w, true, false), ColorStyle(w, true, true))
  }

  /** Two maps agree on every key of the word w. */
  ghost predicate AgreeOn(m1: map<string, Style>, m2: map<string, Style>, w: string) {
    forall s :: ValidShape(s) ==>
      (Key(w, s) in m1 <==> Key(w, s) in m2) && (Key(w, s) in m1 ==> m1[Key(w, s)] == m2[Key(w, s)])
  }

  lemma HueNameIsWord(w: string)
    requires IsHueName(w)
    ensures LowerWord(w) && |w| >= 2
  {
  }

  /** The lengths of the aliases of w: the text aliases are an even number of characters
      longer than w, the bright ones an odd number. */
  lemma AliasLengths(w: string)
    ensures var u := UpperCase(w); var n := |w|;
      |u| == n &&
      |"*" + w + "*"| == n + 2 && |"_" + w + "_"| == n + 2 && |"**" + w + "**"| == n + 4 &&
      |"__" + w + "__"| == n + 4 && |"**_" + w + "_**"| == n + 6 && |"__*" + w + "*__"| == n + 6 &&
      |"_" + u + "_"| == n + 2 && |"*" + u + "*"| == n + 2 &&
      |w + "!"| == n + 1 && |"*" + w + "*!"| == n + 3 && |"_" + w + "_!"| == n + 3 &&
      |"**" + w + "**!"| == n + 5 && |"__" + w + "__!"| == n + 5 && |u + "!"| == n + 1 &&
      |"**_" + w + "_**!"| == n + 7 && |"__*" + w + "*__!"| == n + 7 &&
      |"_" + u + "_!"| == n + 3 && |"*" + u + "*!"| == n + 3 &&
      |"bg_" + w| == n + 3 && |"bg_" + w + "!"| == n + 4
  {
  }

  /** The first two characters of the aliases of w: with the lengths, they tell the
      aliases of one word apart. */
  lemma AliasInitials(w: string)
    requires LowerWord(w) && |w| >= 2
    ensures var u := UpperCase(w);
      u[0] != w[0] &&
      ("*" + w + "*")[0] == '*' && ("*" + w + "*")[1] == w[0] &&
      ("_" + w + "_")[0] == '_' && ("_" + w + "_")[1] == w[0] &&
      ("**" + w + "**")[0] == '*' && ("__" + w + "__")[0] == '_' &&
      ("**_" + w + "_**")[0] == '*' && ("__*" + w + "*__")[0] == '_' &&
      ("_" + u + "_")[0] == '_' && ("_" + u + "_")[1] == u[0] &&
      ("*" + u + "*")[0] == '*' && ("*" + u + "*")[1] == u[0] &&
      (w + "!")[0] == w[0] && (u + "!")[0] == u[0] &&
      ("*" + w + "*!")[0] == '*' && ("*" + w + "*!")[1] == w[0] &&
      ("_" + w + "_!")[0] == '_' && ("_" + w + "_!")[1] == w[0] &&
      ("**" + w + "**!")[0] == '*' && ("__" + w + "__!")[0] == '_' &&
      ("**_" + w + "_**!")[0] == '*' && ("__*" + w + "*__!")[0] == '_' &&
      ("_" + u + "_!")[0] == '_' && ("_" + u + "_!")[1] == u[0] &&
      ("*" + u + "*!")[0] == '*' && ("*" + u + "*!")[1] == u[0] &&
      ("bg_" + w)[0] == 'b' && ("bg_" + w + "!")[0] == 'b'
  {
  }

  /** Every bright alias ends in '!'. */
  lemma BrightEndings(w: string)
    ensures var u := UpperCase(w);
      (w + "!")[|w| ] == '!' && ("*" + w + "*!")[|w| + 2] == '!' && ("_" + w + "_!")[|w| + 2] == '!' &&
      ("**" + w + "**!")[|w| + 4] == '!' && ("__" + w + "__!")[|w| + 4] == '!' && (u + "!")[|w|] == '!' &&
      ("**_" + w + "_**!")[|w| + 6] == '!' && ("__*" + w + "*__!")[|w| + 6] == '!' &&
      ("_" + u + "_!")[|w| + 2] == '!' && ("*" + u + "*!")[|w| + 2] == '!'
  {
    AliasLengths(w);
  }

  /** No text alias ends in '!'. */
  lemma TextEndings(w: string)
    requires LowerWord(w)
    ensures var u := UpperCase(w); var n := |w|;
      w[n - 1] != '!' && ("*" + w + "*")[n + 1] == '*' && ("_" + w + "_")[n + 1] == '_' &&
      ("**" + w + "**")[n + 3] == '*' && ("__" + w + "__")[n + 3] == '_' && u[n - 1] != '!' &&
      ("**_" + w + "_**")[n + 5] == '*' && ("__*" + w + "*__")[n + 5] == '_' &&
      ("_" + u + "_")[n + 1] == '_' && ("*" + u + "*")[n + 1] == '*'
  {
    AliasLengths(w);
  }

  /** No text alias is put twice by one iteration, so each keeps its style. */
  lemma TextAliasesEntries(m: map<string, Style>, w: string, basic: Style)
    requires LowerWord(w) && |w| >= 2
    ensures HasTextAliases(TextAliases(m, w, basic), w, basic)
  {
    AliasLengths(w);
    AliasInitials(w);
  }

  lemma BrightAliasesEntries(m: map<string, Style>, w: string, bright: Style)
    requires LowerWord(w) && |w| >= 2
    ensures HasBrightAliases(BrightAliases(m, w, bright), w, bright)
  {
    AliasLengths(w);
    AliasInitials(w);
  }

  /** The bright puts leave every key that does not end in '!' alone. */
  lemma BrightKeepsAt(m: map<string, Style>, w: string, bright: Style, k: string)
    requires |k| > 0 && k[|k| - 1] != '!'
    ensures SameAt(m, BrightAliases(m, w, bright), k)
  {
    BrightEndings(w);
  }

  /** The bright aliases differ in length from the text aliases, so they leave them alone. */
  lemma BrightKeepsText(m: map<string, Style>, w: string, basic: Style, bright: Style)
    requires LowerWord(w) && |w| >= 2 && HasTextAliases(m, w, basic)
    ensures HasTextAliases(BrightAliases(m, w, bright), w, basic)
  {
    AliasLengths(w);
    TextEndings(w);
    var u := UpperCase(w);
    BrightKeepsAt(m, w, bright, w);
    BrightKeepsAt(m, w, bright, "*" + w + "*");
    BrightKeepsAt(m, w, bright, "_" + w + "_");
    BrightKeepsAt(m, w, bright, "**" + w + "**");
    BrightKeepsAt(m, w, bright, "__" + w + "__");
    BrightKeepsAt(m, w, bright, u);
    BrightKeepsAt(m, w, bright, "**_" + w + "_**");
    BrightKeepsAt(m, w, bright, "__*" + w + "*__");
    BrightKeepsAt(m, w, bright, "_" + u + "_");
    BrightKeepsAt(m, w, bright, "*" + u + "*");
  }

  /** The background names start with 'b' where a text alias of the same length starts
      with a mark, so they leave the text aliases alone. */
  lemma BackgroundKeepsText(m: map<string, Style>, w: string, basic: Style, background: Style, backgroundBright: Style)
    requires LowerWord(w) && |w| >= 2 && HasTextAliases(m, w, basic)
    ensures HasTextAliases(BackgroundAliases(m, w, background, backgroundBright), w, basic)
  {
    AliasLengths(w);
    AliasInitials(w);
  }

  lemma BackgroundKeepsBright(m: map<string, Style>, w: string, bright: Style, background: Style, backgroundBright: Style)
    requires LowerWord(w) && |w| >= 2 && HasBrightAliases(m, w, bright)
    ensures HasBrightAliases(BackgroundAliases(m, w, background, backgroundBright), w, bright)
  {
    AliasLengths(w);
    AliasInitials(w);
  }

  /** No alias of a color is put twice by its own iteration, so each keeps its style. */
  lemma ColorStepEntries(m: map<string, Style>, w: string)
    requires IsHueName(w)
    ensures HasColorEntries(ColorStep(m, w), w)
  {
    HueNameIsWord(w);
    var basic, bright := ColorStyle(w, false, false), ColorStyle(w, false, true);
    var background, backgroundBright := ColorStyle(w, true, false), ColorStyle(w, true, true);
    var text := TextAliases(m, w, basic);
    var brights := BrightAliases(text, w, bright);
    TextAliasesEntries(m, w, basic);
    BrightKeepsText(text, w, basic, bright);
    BackgroundKeepsText(brights, w, basic, background, backgroundBright);
    BrightAliasesEntries(text, w, bright);
    BackgroundKeepsBright(brights, w, bright, background, backgroundBright);
  }

  /** Every alias is a key of its word. */
  lemma TextKeysAreKeys(w: string)
    ensures var u := UpperCase(w);
      w == Key(w, Shape("", Lower, "")) &&
      "*" + w + "*" == Key(w, Shape("*", Lower, "*")) &&
      "_" + w + "_" == Key(w, Shape("_", Lower, "_")) &&
      "**" + w + "**" == Key(w, Shape("**", Lower, "**")) &&
      "__" + w + "__" == Key(w, Shape("__", Lower, "__")) &&
      u == Key(w, Shape("", Upper, "")) &&
      "**_" + w + "_**" == Key(w, Shape("**_", Lower, "_**")) &&
      "__*" + w + "*__" == Key(w, Shape("__*", Lower, "*__")) &&
      "_" + u + "_" == Key(w, Shape("_", Upper, "_")) &&
      "*" + u + "*" == Key(w, Shape("*", Upper, "*"))
  {
    assert w == "" + w + "";
    assert UpperCase(w) == "" + UpperCase(w) + "";
  }

  lemma BrightKeysAreKeys(w: string)
    ensures var u := UpperCase(w);
      w + "!" == Key(w, Shape("", Lower, "!")) &&
      "*" + w + "*!" == Key(w, Shape("*", Lower, "*!")) &&
      "_" + w + "_!" == Key(w, Shape("_", Lower, "_!")) &&
      "**" + w + "**!" == Key(w, Shape("**", Lower, "**!")) &&
      "__" + w + "__!" == Key(w, Shape("__", Lower, "__!")) &&
      u + "!" == Key(w, Shape("", Upper, "!")) &&
      "**_" + w + "_**!" == Key(w, Shape("**_", Lower, "_**!")) &&
      "__*" + w + "*__!" == Key(w, Shape("__*", Lower, "*__!")) &&
      "_" + u + "_!" == Key(w, Shape("_", Upper, "_!")) &&
      "*" + u + "*!" == Key(w, Shape("*", Upper, "*!"))
  {
    assert w + "!" == "" + w + "!";
    assert UpperCase(w) + "!" == "" + UpperCase(w) + "!";
  }

  lemma BackgroundKeysAreKeys(w: string)
    ensures "bg_" + w == Key(w, Shape("", Background, "")) &&
      "bg_" + w + "!" == Key(w, Shape("", Background, "!"))
  {
    assert "bg_" + w == "" + ("bg_" + w) + "";
    assert "bg_" + w + "!" == "" + ("bg_" + w) + "!";
  }

  /** The shapes of the aliases are shapes of keys. */
  lemma AliasShapesValid()
    ensures ValidShape(Shape("", Lower, "")) && ValidShape(Shape("*", Lower, "*")) &&
      ValidShape(Shape("_", Lower, "_")) && ValidShape(Shape("**", Lower, "**")) &&
      ValidShape(Shape("__", Lower, "__")) && ValidShape(Shape("**_", Lower, "_**")) &&
      ValidShape(Shape("__*", Lower, "*__")) && ValidShape(Shape("", Lower, "!")) &&
      ValidShape(Shape("*", Lower, "*!")) && ValidShape(Shape("_", Lower, "_!")) &&
      ValidShape(Shape("**", Lower, "**!")) && ValidShape(Shape("__", Lower, "__!")) &&
      ValidShape(Shape("**_", Lower, "_**!")) && ValidShape(Shape("__*", Lower, "*__!"))
  {
  }

  lemma TextFrame(m: map<string, Style>, v: string, w: string, basic: Style)
    requires LowerWord(v) && LowerWord(w) && v != w
    ensures AgreeOn(m, TextAliases(m, v, basic), w)
  {
    TextKeysAreKeys(v);
    AliasShapesValid();
    forall s | ValidShape(s)
      ensures (Key(w, s) in m <==> Key(w, s) in TextAliases(m, v, basic)) &&
        (Key(w, s) in m ==> m[Key(w, s)] == TextAliases(m, v, basic)[Key(w, s)])
    {
      KeysDiffer(v, Shape("", Lower, ""), w, s);
      KeysDiffer(v, Shape("*", Lower, "*"), w, s);
      KeysDiffer(v, Shape("_", Lower, "_"), w, s);
      KeysDiffer(v, Shape("**", Lower, "**"), w, s);
      KeysDiffer(v, Shape("__", Lower, "__"), w, s);
      KeysDiffer(v, Shape("", Upper, ""), w, s);
      KeysDiffer(v, Shape("**_", Lower, "_**"), w, s);
      KeysDiffer(v, Shape("__*", Lower, "*__"), w, s);
      KeysDiffer(v, Shape("_", Upper, "_"), w, s);
      KeysDiffer(v, Shape("*", Upper, "*"), w, s);
    }
  }

  lemma BrightFrame(m: map<string, Style>, v: string, w: string, bright: Style)
    requires LowerWord(v) && LowerWord(w) && v != w
    ensures AgreeOn(m, BrightAliases(m, v, bright), w)
  {
    BrightKeysAreKeys(v);
    AliasShapesValid();
    forall s | ValidShape(s)
      ensures (Key(w, s) in m <==> Key(w, s) in BrightAliases(m, v, bright)) &&
        (Key(w, s) in m ==> m[Key(w, s)] == BrightAliases(m, v, bright)[Key(w, s)])
    {
      KeysDiffer(v, Shape("", Lower, "!"), w, s);
      KeysDiffer(v, Shape("*", Lower, "*!"), w, s);
      KeysDiffer(v, Shape("_", Lower, "_!"), w, s);
      KeysDiffer(v, Shape("**", Lower, "**!"), w, s);
      KeysDiffer(v, Shape("__", Lower, "__!"), w, s);
      KeysDiffer(v, Shape("", Upper, "!"), w, s);
      KeysDiffer(v, Shape("**_", Lower, "_**!"), w, s);
      KeysDiffer(v, Shape("__*", Lower, "*__!"), w, s);
      KeysDiffer(v, Shape("_", Upper, "_!"), w, s);
      KeysDiffer(v, Shape("*", Upper, "*!"), w, s);
    }
  }

  lemma BackgroundFrame(m: map<string, Style>, v: string, w: string, background: Style, backgroundBright: Style)
    requires LowerWord(v) && LowerWord(w) && v != w
    ensures AgreeOn(m, BackgroundAliases(m, v, background, backgroundBright), w)
  {
    BackgroundKeysAreKeys(v);
    AliasShapesValid();
    forall s | ValidShape(s)
      ensures (Key(w, s) in m <==> Key(w, s) in BackgroundAliases(m, v, background, backgroundBright)) &&
        (Key(w, s) in m ==> m[Key(w, s)] == BackgroundAliases(m, v, background, backgroundBright)[Key(w, s)])
    {
      KeysDiffer(v, Shape("", Background, ""), w, s);
      KeysDiffer(v, Shape("", Background, "!"), w, s);
    }
  }

  /** An iteration for one color leaves every key of another word alone. */
  lemma ColorStepFrame(m: map<string, Style>, v: string, w: string)
    requires IsHueName(v) && LowerWord(w) && v != w
    ensures AgreeOn(m, ColorStep(m, v), w)
  {
    HueNameIsWord(v);
    var text := TextAliases(m, v, ColorStyle(v, false, false));
    var bright := BrightAliases(text, v, ColorStyle(v, false, true));
    TextFrame(m, v, w, ColorStyle(v, false, false));
    BrightFrame(text, v, w, ColorStyle(v, false, true));
    BackgroundFrame(bright, v, w, ColorStyle(v, true, false), ColorStyle(v, true, true));
  }

  lemma AgreeTransfer(m1: map<string, Style>, m2: map<string, Style>, w: string)
    requires IsHueName(w) && AgreeOn(m1, m2, w) && HasColorEntries(m1, w)
    ensures HasColorEntries(m2, w)
  {
    TextKeysAreKeys(w);
    BrightKeysAreKeys(w);
    BackgroundKeysAreKeys(w);
    AliasShapesValid();
  }

  lemma {:induction false} ColorsStepEntries(m: map<string, Style>, names: seq<string>, w: string)
    requires forall v :: v in names ==> v in ColorNames
    requires forall i, j :: 0 <= i < j < |names| ==> names[i] != names[j]
    requires IsHueName(w) && w in names
    ensures HasColorEntries(ColorsStep(m, names), w)
    decreases |names|
  {
    var prefix := names[..|names| - 1];
    var last := names[|names| - 1];
    var prev := ColorsStep(m, prefix);
    if last == w {
      ColorStepEntries(prev, w);
    } else {
      assert w in prefix by {
        var i :| 0 <= i < |names| && names[i] == w;
        assert prefix[i] == w;
      }
      ColorsStepEntries(m, prefix, w);
      if last != "bold" {
        HueNameIsWord(w);
        ColorStepFrame(prev, last, w);
        AgreeTransfer(prev, ColorStep(prev, last), w);
      }
    }
  }

  lemma {:induction false} ColorsStepKeeps(m: map<string, Style>, names: seq<string>, w: string)
    requires forall v :: v in names ==> v in ColorNames
    requires LowerWord(w) && w !in names
    ensures AgreeOn(m, ColorsStep(m, names), w)
    decreases |names|
  {
    if names != [] {
      var prefix := names[..|names| - 1];
      var last := names[|names| - 1];
      ColorsStepKeeps(m, prefix, w);
      if last != "bold" {
        ColorStepFrame(ColorsStep(m, prefix), last, w);
      }
    }
  }

  /** The words of the emphasis names. */
  const EmphasisWords: set<string> :=
    {"bold", "italic", "plain", "faint", "underline", "strikethrough", "blink", "conceal"}

  lemma EmphasisWordsAreWords()
    ensures LowerWord("bold") && LowerWord("italic") && LowerWord("plain") && LowerWord("faint") &&
      LowerWord("underline") && LowerWord("strikethrough") && LowerWord("blink") && LowerWord("conceal")
  {
  }

  lemma EmphasisNamesAreKeys()
    ensures "bold" == Key("bold", Shape("", Lower, "")) && "BOLD" == Key("bold", Shape("", Upper, "")) &&
      "italic" == Key("italic", Shape("", Lower, ""))
  {
    assert UpperCase("bold") == "BOLD";
  }

  lemma BoldItalicAliasesAreKeys()
    ensures "*bold*" == Key("bold", Shape("*", Lower, "*")) && "_bold_" == Key("bold", Shape("_", Lower, "_")) &&
      "*BOLD*" == Key("bold", Shape("*", Upper, "*")) && "_BOLD_" == Key("bold", Shape("_", Upper, "_")) &&
      "**italic**" == Key("italic", Shape("**", Lower, "**")) &&
      "__italic__" == Key("italic", Shape("__", Lower, "__")) &&
      "ITALIC" == Key("italic", Shape("", Upper, ""))
  {
    assert UpperCase("bold") == "BOLD";
    assert UpperCase("italic") == "ITALIC";
  }

  lemma AttributeNamesAreKeys()
    ensures "plain" == Key("plain", Shape("", Lower, "")) && "faint" == Key("faint", Shape("", Lower, "")) &&
      "underline" == Key("underline", Shape("", Lower, "")) &&
      "strikethrough" == Key("strikethrough", Shape("", Lower, "")) &&
      "blink" == Key("blink", Shape("", Lower, "")) && "conceal" == Key("conceal", Shape("", Lower, ""))
  {
  }

  lemma EmphasisNamesFrame(m: map<string, Style>, w: string)
    requires LowerWord(w) && w !in EmphasisWords
    ensures AgreeOn(m, EmphasisNames(m), w)
  {
    EmphasisWordsAreWords();
    EmphasisNamesAreKeys();
    AliasShapesValid();
    forall s | ValidShape(s)
      ensures (Key(w, s) in m <==> Key(w, s) in EmphasisNames(m)) &&
        (Key(w, s) in m ==> m[Key(w, s)] == EmphasisNames(m)[Key(w, s)])
    {
      KeysDiffer("bold", Shape("", Lower, ""), w, s);
      KeysDiffer("bold", Shape("", Upper, ""), w, s);
      KeysDiffer("italic", Shape("", Lower, ""), w, s);
    }
  }

  lemma BoldItalicAliasesFrame(m: map<string, Style>, w: string)
    requires LowerWord(w) && w !in EmphasisWords
    ensures AgreeOn(m, BoldItalicAliases(m), w)
  {
    EmphasisWordsAreWords();
    BoldItalicAliasesAreKeys();
    AliasShapesValid();
    forall s | ValidShape(s)
      ensures (Key(w, s) in m <==> Key(w, s) in BoldItalicAliases(m)) &&
        (Key(w, s) in m ==> m[Key(w, s)] == BoldItalicAliases(m)[Key(w, s)])
    {
      KeysDiffer("bold", Shape("*", Lower, "*"), w, s);
      KeysDiffer("bold", Shape("_", Lower, "_"), w, s);
      KeysDiffer("bold", Shape("*", Upper, "*"), w, s);
      KeysDiffer("bold", Shape("_", Upper, "_"), w, s);
      KeysDiffer("italic", Shape("**", Lower, "**"), w, s);
      KeysDiffer("italic", Shape("__", Lower, "__"), w, s);
      KeysDiffer("italic", Shape("", Upper, ""), w, s);
    }
  }

  lemma AttributeNamesFrame(m: map<string, Style>, w: string)
    requires LowerWord(w) && w !in EmphasisWords
    ensures AgreeOn(m, AttributeNames(m), w)
  {
    EmphasisWordsAreWords();
    AttributeNamesAreKeys();
    AliasShapesValid();
    forall s | ValidShape(s)
      ensures (Key(w, s) in m <==> Key(w, s) in AttributeNames(m)) &&
        (Key(w, s) in m ==> m[Key(w, s)] == AttributeNames(m)[Key(w, s)])
    {
      KeysDiffer("plain", Shape("", Lower, ""), w, s);
      KeysDiffer("faint", Shape("", Lower, ""), w, s);
      KeysDiffer("underline", Shape("", Lower, ""), w, s);
      KeysDiffer("strikethrough", Shape("", Lower, ""), w, s);
      KeysDiffer("blink", Shape("", Lower, ""), w, s);
      KeysDiffer("conceal", Shape("", Lower, ""), w, s);
    }
  }

  /** The emphasis puts leave every key of another word alone. */
  lemma EmphasisFrame(m: map<string, Style>, w: string)
    requires LowerWord(w) && w !in EmphasisWords
    ensures AgreeOn(m, EmphasisStep(m), w)
  {
    EmphasisNamesFrame(m, w);
    BoldItalicAliasesFrame(EmphasisNames(m), w);
    AttributeNamesFrame(BoldItalicAliases(EmphasisNames(m)), w);
  }

  lemma ColorNamesDistinct()
    ensures forall i, j :: 0 <= i < j < |ColorNames| ==> ColorNames[i] != ColorNames[j]
  {
  }

  lemma HueNamesAreNotEmphasis(w: string)
    requires IsHueName(w)
    ensures w !in EmphasisWords
  {
  }

  /** Every color but "bold" has all its aliases in the table, with the styles the loop gives them:
      neither a later color nor the emphasis names overwrite them. */
  lemma TableColorEntries(w: string)
    requires IsHueName(w)
    ensures HasColorEntries(Table(), w)
  {
    var colors := ColorsStep(NoneStep(map[]), ColorNames);
    ColorNamesDistinct();
    ColorsStepEntries(NoneStep(map[]), ColorNames, w);
    HueNameIsWord(w);
    HueNamesAreNotEmphasis(w);
    EmphasisFrame(colors, w);
    AgreeTransfer(colors, Table(), w);
  }

  lemma AttributeNamesKeep(m: map<string, Style>, k: string)
    requires k !in {"plain", "faint", "underline", "strikethrough", "blink", "conceal"}
    ensures SameAt(m, AttributeNames(m), k)
  {
  }

  lemma BoldItalicAliasesKeep(m: map<string, Style>, k: string)
    requires k !in {"*bold*", "_bold_", "*BOLD*", "_BOLD_", "**italic**", "__italic__", "ITALIC"}
    ensures SameAt(m, BoldItalicAliases(m), k)
  {
  }

  lemma EmphasisNamesEntries(m: map<string, Style>)
    ensures var t := EmphasisNames(m);
      Entry(t, "bold", CoreBold) && Entry(t, "BOLD", CoreBold) && Entry(t, "italic", CoreItalic)
  {
  }

  lemma BoldItalicAliasesEntries(m: map<string, Style>)
    ensures var t := BoldItalicAliases(m);
      Entry(t, "*bold*", CoreBoldItalic) && Entry(t, "_bold_", CoreBoldItalic) &&
      Entry(t, "*BOLD*", CoreBoldItalic) && Entry(t, "_BOLD_", CoreBoldItalic) &&
      Entry(t, "**italic**", CoreBoldItalic) && Entry(t, "__italic__", CoreBoldItalic) &&
      Entry(t, "ITALIC", CoreBoldItalic)
  {
  }

  lemma AttributeNamesEntries(m: map<string, Style>)
    ensures var t := AttributeNames(m);
      Entry(t, "plain", CorePlain) && Entry(t, "faint", CoreFaint) &&
      Entry(t, "underline", Emphasis(Underline)) && Entry(t, "strikethrough", Emphasis(StrikethroughOn)) &&
      Entry(t, "blink", Emphasis(BlinkSlow)) && Entry(t, "conceal", Emphasis(ConcealOn))
  {
  }

  /** The emphasis puts, made last, each keep their own style: no emphasis name is put twice. */
  lemma EmphasisStepEntries(m: map<string, Style>)
    ensures var t := EmphasisStep(m);
      Entry(t, "bold", CoreBold) && Entry(t, "BOLD", CoreBold) && Entry(t, "italic", CoreItalic) &&
      Entry(t, "*bold*", CoreBoldItalic) && Entry(t, "_bold_", CoreBoldItalic) &&
      Entry(t, "*BOLD*", CoreBoldItalic) && Entry(t, "_BOLD_", CoreBoldItalic) &&
      Entry(t, "**italic**", CoreBoldItalic) && Entry(t, "__italic__", CoreBoldItalic) &&
      Entry(t, "ITALIC", CoreBoldItalic) && Entry(t, "plain", CorePlain) && Entry(t, "faint", CoreFaint) &&
      Entry(t, "underline", Emphasis(Underline)) && Entry(t, "strikethrough", Emphasis(StrikethroughOn)) &&
      Entry(t, "blink", Emphasis(BlinkSlow)) && Entry(t, "conceal", Emphasis(ConcealOn))
  {
    var names := EmphasisNames(m);
    var aliases := BoldItalicAliases(names);
    EmphasisNamesEntries(m);
    BoldItalicAliasesKeep(names, "bold");
    BoldItalicAliasesKeep(names, "BOLD");
    BoldItalicAliasesKeep(names, "italic");
    BoldItalicAliasesEntries(names);
    AttributeNamesKeep(aliases, "bold");
    AttributeNamesKeep(aliases, "BOLD");
    AttributeNamesKeep(aliases, "italic");
    AttributeNamesKeep(aliases, "*bold*");
    AttributeNamesKeep(aliases, "_bold_");
    AttributeNamesKeep(aliases, "*BOLD*");
    AttributeNamesKeep(aliases, "_BOLD_");
    AttributeNamesKeep(aliases, "**italic**");
    AttributeNamesKeep(aliases, "__italic__");
    AttributeNamesKeep(aliases, "ITALIC");
    AttributeNamesEntries(aliases);
  }

  /** "bold" is the bold emphasis and not a color, and the other emphasis names keep their styles. */
  lemma TableEmphasisEntries()
    ensures var t := Table();
      Entry(t, "bold", CoreBold) && Entry(t, "BOLD", CoreBold) && Entry(t, "italic", CoreItalic) &&
      Entry(t, "*bold*", CoreBoldItalic) && Entry(t, "_bold_", CoreBoldItalic) &&
      Entry(t, "*BOLD*", CoreBoldItalic) && Entry(t, "_BOLD_", CoreBoldItalic) &&
      Entry(t, "**italic**", CoreBoldItalic) && Entry(t, "__italic__", CoreBoldItalic) &&
      Entry(t, "ITALIC", CoreBoldItalic) && Entry(t, "plain", CorePlain) && Entry(t, "faint", CoreFaint) &&
      Entry(t, "underline", Emphasis(Underline)) && Entry(t, "strikethrough", Emphasis(StrikethroughOn)) &&
      Entry(t, "blink", Emphasis(BlinkSlow)) && Entry(t, "conceal", Emphasis(ConcealOn))
  {
    EmphasisStepEntries(ColorsStep(NoneStep(map[]), ColorNames));
  }

  /** The names of no style are keys of a word that is neither a color nor an emphasis. */
  lemma NoneKeys()
    ensures "none" == Key("none", Shape("", Lower, "")) && "bg_none" == Key("none", Shape("", Background, "")) &&
      LowerWord("none") && "none" !in ColorNames && "none" !in EmphasisWords
  {
    assert "bg_none" == "" + ("bg_" + "none") + "";
  }

  /** The color loop and the emphasis puts leave the two names of no style alone. */
  lemma NoneSurvives(m: map<string, Style>)
    requires Entry(m, "none", NoStyle) && Entry(m, "bg_none", NoStyle)
    ensures var t := EmphasisStep(ColorsStep(m, ColorNames));
      Entry(t, "none", NoStyle) && Entry(t, "bg_none", NoStyle)
  {
    var colors := ColorsStep(m, ColorNames);
    NoneKeys();
    AliasShapesValid();
    ColorsStepKeeps(m, ColorNames, "none");
    EmphasisFrame(colors, "none");
  }

  /** "none" and "bg_none" name no style. */
  lemma TableNoneEntries()
    ensures Entry(Table(), "none", NoStyle) && Entry(Table(), "bg_none", NoStyle)
  {
    NoneSurvives(NoneStep(map[]));
  }

  /** The 22 aliases of a color and its two background names. */
  function ColorKeys(w: string): set<string> {
    var u := UpperCase(w);
    {w, "*" + w + "*", "_" + w + "_", "**" + w + "**", "__" + w + "__", u,
     "**_" + w + "_**", "__*" + w + "*__", "_" + u + "_", "*" + u + "*",
     w + "!", "*" + w + "*!", "_" + w + "_!", "**" + w + "**!", "__" + w + "__!", u + "!",
     "**_" + w + "_**!", "__*" + w + "*__!", "_" + u + "_!", "*" + u + "*!",
     "bg_" + w, "bg_" + w + "!"}
  }

  /** The emphasis names. */
  const EmphasisKeys: set<string> :=
    {"bold", "BOLD", "italic", "*bold*", "_bold_", "*BOLD*", "_BOLD_", "**italic**", "__italic__", "ITALIC",
     "plain", "faint", "underline", "strikethrough", "blink", "conceal"}

  lemma ColorStepKeys(m: map<string, Style>, w: string)
    requires IsHueName(w)
    ensures ColorStep(m, w).Keys == m.Keys + ColorKeys(w)
  {
  }

  /** The aliases of every color the loop visits. */
  function LoopKeys(names: seq<string>): set<string>
    decreases |names|
  {
    if names == [] then {}
    else
      var last := names[|names| - 1];
      LoopKeys(names[..|names| - 1]) + (if last == "bold" then {} else ColorKeys(last))
  }

  lemma {:induction false} ColorsStepDomain(m: map<string, Style>, names: seq<string>)
    requires forall v :: v in names ==> v in ColorNames
    ensures ColorsStep(m, names).Keys == m.Keys + LoopKeys(names)
    decreases |names|
  {
    if names != [] {
      var prefix := names[..|names| - 1];
      var last := names[|names| - 1];
      ColorsStepDomain(m, prefix);
      if last != "bold" {
        ColorStepKeys(ColorsStep(m, prefix), last);
      }
    }
  }

  lemma EmphasisStepKeys(m: map<string, Style>)
    ensures EmphasisStep(m).Keys == m.Keys + EmphasisKeys
  {
  }

  /** The table knows exactly the names of no style, the aliases of every color but "bold",
      and the emphasis names. */
  lemma TableDomain()
    ensures Table().Keys == {"none", "bg_none"} + LoopKeys(ColorNames) + EmphasisKeys
  {
    var none := NoneStep(map[]);
    ColorsStepDomain(none, ColorNames);
    EmphasisStepKeys(ColorsStep(none, ColorNames));
  }

  /** Each color constant the class resolves with named(name, true) exists, so initialising
      the class does not fail, and names the style the color loop gives it. */
  lemma ColorConstantsResolve(w: string, enabled: bool)
    requires IsHueName(w)
    ensures var u := UpperCase(w);
      var basic := ColorStyle(w, false, false);
      var bright := ColorStyle(w, false, true);
      var t := Table();
      Named(t, w, true, enabled) == Ok(if enabled then basic else NoStyle) &&
      Named(t, "_" + w + "_", true, enabled) == Ok(if enabled then Composite([CoreItalic, basic]) else NoStyle) &&
      Named(t, w + "!", true, enabled) == Ok(if enabled then bright else NoStyle) &&
      Named(t, u, true, enabled) == Ok(if enabled then Composite([CoreBold, basic]) else NoStyle) &&
      Named(t, "_" + u + "_", true, enabled) == Ok(if enabled then Composite([CoreBoldItalic, basic]) else NoStyle) &&
      Named(t, u + "!", true, enabled) == Ok(if enabled then Composite([CoreBold, bright]) else NoStyle) &&
      Named(t, "_" + u + "_!", true, enabled) == Ok(if enabled then Composite([CoreBold, CoreItalic, bright]) else NoStyle)
  {
    TableColorEntries(w);
  }

  /** The emphasis constants resolve too. */
  lemma EmphasisConstantsResolve(enabled: bool)
    ensures var t := Table();
      Named(t, "plain", true, enabled) == Ok(if enabled then CorePlain else NoStyle) &&
      Named(t, "bold", true, enabled) == Ok(if enabled then CoreBold else NoStyle) &&
      Named(t, "italic", true, enabled) == Ok(if enabled then CoreItalic else NoStyle) &&
      Named(t, "ITALIC", true, enabled) == Ok(if enabled then CoreBoldItalic else NoStyle)
  {
    TableEmphasisEntries();
  }
}
