/** JSON texts as RFC 8259 writes them, printed with any white space, and what src/jsmn.c and
    src/json_util.cpp make of them. */
module JsonPrint {
  import opened Jsmn
  import opened JsonGrammar
  import opened JsonUtil
  import opened Numbers

  // ---------------------------------------------------------------- values and their texts

  /** One character of a string: itself, an escaped one, or four hexadecimal digits. */
  datatype Char = Plain(c: char) | Escape(c: char) | Unicode(digits: string)

  /** A value with the white space its brackets, commas and colons are printed with. */
  datatype Json =
    | True
    | False
    | Null
    | Number(negative: bool, whole: nat, fraction: string, exponent: string)
    | Quote(chars: seq<Char>)
    | List(space: string, items: seq<Item>)
    | Dict(space: string, members: seq<Member>)

  datatype Item = Item(before: string, value: Json, after: string)

  /** Space, key, space, colon, space, value, space. */
  datatype Member = Member(before: string, key: seq<Char>, left: string, right: string, value: Json, after: string)

  /** The white space of section 2 of RFC 8259. */
  predicate IsSpace(s: string) {
    forall i | 0 <= i < |s| :: s[i] == ' ' || s[i] == '\t' || s[i] == '\n' || s[i] == '\r'
  }

  predicate IsHex(c: char) {
    '0' <= c <= '9' || 'a' <= c <= 'f' || 'A' <= c <= 'F'
  }

  /** Section 7: no control character, quote or backslash stands for itself. */
  predicate IsChar(c: Char) {
    match c
    case Plain(c) => ' ' <= c && c != '\"' && c != '\\'
    case Escape(c) => c in "\"\\/bfnrt"
    case Unicode(digits) => |digits| == 4 && forall i | 0 <= i < 4 :: IsHex(digits[i])
  }

  predicate AreChars(cs: seq<Char>) {
    forall i | 0 <= i < |cs| :: IsChar(cs[i])
  }

  predicate Digits(s: string) {
    s != "" && AllDigits(s)
  }

  /** Section 6. */
  predicate IsFraction(s: string) {
    s == "" || (s[0] == '.' && Digits(s[1..]))
  }

  predicate IsExponent(s: string) {
    s == "" || (s[0] in "eE" && (Digits(s[1..]) || (|s| > 1 && s[1] in "+-" && Digits(s[2..]))))
  }

  ghost predicate IsJson(v: Json)
    decreases v
  {
    match v
    case Number(_, _, fraction, exponent) => IsFraction(fraction) && IsExponent(exponent)
    case Quote(chars) => AreChars(chars)
    case List(space, items) =>
      IsSpace(space) && forall i | 0 <= i < |items| :: IsItemOk(items[i])
    case Dict(space, members) =>
      IsSpace(space) && forall i | 0 <= i < |members| :: IsMemberOk(members[i])
    case _ => true
  }

  ghost predicate IsItemOk(item: Item)
    decreases item
  {
    IsSpace(item.before) && IsSpace(item.after) && IsJson(item.value)
  }

  ghost predicate IsMemberOk(m: Member)
    decreases m
  {
    && IsSpace(m.before) && AreChars(m.key) && IsSpace(m.left) && IsSpace(m.right) && IsSpace(m.after)
    && IsJson(m.value)
  }

  /** Numbers and words: what jsmn calls a primitive. */
  predicate IsAtom(v: Json) {
    !v.Quote? && !v.List? && !v.Dict?
  }

  function PrintChar(c: Char): string {
    match c
    case Plain(c) => [c]
    case Escape(c) => ['\\', c]
    case Unicode(digits) => "\\u" + digits
  }

  function PrintChars(cs: seq<Char>): string {
    if cs == [] then "" else PrintChar(cs[0]) + PrintChars(cs[1..])
  }

  function PrintKey(key: seq<Char>): string {
    "\"" + PrintChars(key) + "\""
  }

  function PrintNumber(negative: bool, whole: nat, fraction: string, exponent: string): string {
    (if negative then "-" else "") + (Decimal(whole) + (fraction + exponent))
  }

  function Print(v: Json): string
    decreases v
  {
    match v
    case True => "true"
    case False => "false"
    case Null => "null"
    case Number(negative, whole, fraction, exponent) => PrintNumber(negative, whole, fraction, exponent)
    case Quote(chars) => PrintKey(chars)
    case List(space, items) => "[" + (space + PrintItems(items)) + "]"
    case Dict(space, members) => "{" + (space + PrintMembers(members)) + "}"
  }

  function Comma(n: nat): string {
    if n == 0 then "" else ","
  }

  function PrintItems(items: seq<Item>): string
    decreases items
  {
    if items == [] then ""
    else
      var n := |items| - 1;
      PrintItems(items[..n]) + ((Comma(n) + items[n].before) + Print(items[n].value) + items[n].after)
  }

  function PrintMembers(members: seq<Member>): string
    decreases members
  {
    if members == [] then ""
    else
      var n := |members| - 1;
      PrintMembers(members[..n]) + PrintMember(Comma(n) + members[n].before, members[n])
  }

  function PrintMember(gap: string, m: Member): string
    decreases m
  {
    gap + PrintKey(m.key) + (m.left + ":" + m.right) + Print(m.value) + m.after
  }

  // ---------------------------------------------------------------- the tree of a printed value

  function TreeOf(v: Json, p: nat): Tree
    decreases v
  {
    match v
    case List(space, items) => Tree(Array, p, p + |Print(v)|, ItemTrees(items, p + 1 + |space|))
    case Dict(space, members) => Tree(Object, p, p + |Print(v)|, MemberTrees(members, p + 1 + |space|))
    case Quote(chars) => KeyTree(chars, p)
    case _ => Tree(Primitive, p, p + |Print(v)|, [])
  }

  function ItemTrees(items: seq<Item>, p: nat): seq<Tree>
    decreases items
  {
    if items == [] then []
    else
      var n := |items| - 1;
      ItemTrees(items[..n], p)
      + [TreeOf(items[n].value, p + |PrintItems(items[..n])| + |Comma(n) + items[n].before|)]
  }

  function KeyTree(key: seq<Char>, p: nat): Tree {
    Tree(String, p + 1, p + 1 + |PrintChars(key)|, [])
  }

  function MemberTrees(members: seq<Member>, p: nat): seq<Tree>
    decreases members
  {
    if members == [] then []
    else
      var n := |members| - 1;
      var m := members[n];
      var k := p + |PrintMembers(members[..n])| + |Comma(n) + m.before|;
      MemberTrees(members[..n], p)
      + [KeyTree(m.key, k)]
      + [TreeOf(m.value, k + |PrintKey(m.key)| + |m.left + ":" + m.right|)]
  }

  // ---------------------------------------------------------------- where texts stand

  ghost predicate Stands(js: Text, p: nat, s: string) {
    p + |s| <= |js| && js[p..p + |s|] == s
  }

  lemma StandsParts(js: Text, p: nat, s: string, t: string)
    requires Stands(js, p, s + t)
    ensures Stands(js, p, s) && Stands(js, p + |s|, t)
  {
    assert js[p..p + |s|] == (s + t)[..|s|] == s;
    assert js[p + |s|..p + |s| + |t|] == (s + t)[|s|..] == t;
  }

  lemma StandsAt(js: Text, p: nat, s: string, i: nat)
    requires Stands(js, p, s) && i < |s|
    ensures js[p + i] == s[i]
  {
    assert js[p..p + |s|][i] == s[i];
  }

  /** Nothing but white space, commas and colons. */
  predicate IsGap(s: string) {
    forall i | 0 <= i < |s| :: s[i] in " \t\n\r,:"
  }

  lemma GapSeparates(js: Text, p: nat, s: string)
    requires IsGap(s) && Stands(js, p, s)
    ensures Separators(js, p, p + |s|)
  {
    forall i | p <= i < p + |s| ensures IsSeparator(js[i]) {
      StandsAt(js, p, s, i - p);
      assert s[i - p] in " \t\n\r,:";
    }
  }

  lemma SpaceIsGap(s: string)
    requires IsSpace(s)
    ensures IsGap(s)
  {
  }

  lemma GapsJoin(s: string, t: string)
    requires IsGap(s) && IsGap(t)
    ensures IsGap(s + t)
  {
    forall i | 0 <= i < |s + t| ensures (s + t)[i] in " \t\n\r,:" {
      if i < |s| {
        assert s[i] in " \t\n\r,:";
      } else {
        assert t[i - |s|] in " \t\n\r,:";
      }
    }
  }

  /** What must come behind a number or a word. */
  ghost predicate Ends(js: Text, p: nat) {
    p <= |js| && (p < |js| ==> EndsPrimitive(js[p]))
  }

  lemma GapEnds(js: Text, p: nat, s: string)
    requires IsGap(s) && Stands(js, p, s) && (s == "" ==> Ends(js, p))
    ensures Ends(js, p)
  {
    if s != "" {
      StandsAt(js, p, s, 0);
      assert s[0] in " \t\n\r,:";
    }
  }

  lemma {:induction false} ParsesGap(js: Text, a: nat, b: nat, c: nat, ts: seq<Tree>)
    requires Parses(js, a, b, ts) && Separators(js, b, c)
    ensures Parses(js, a, c, ts)
    decreases c - b
  {
    hide Parses;
    if b < c {
      ParsesBounds(js, a, b, ts);
      ParsesSeparator(js, a, b, ts);
      ParsesGap(js, a, b + 1, c, ts);
    }
  }

  lemma {:induction false} ParsesBounds(js: Text, a: nat, b: nat, ts: seq<Tree>)
    requires Parses(js, a, b, ts)
    ensures a <= b <= |js|
  {
    hide Fits;
    if ts != [] {
      FitsBounds(js, ts[|ts| - 1]);
    }
  }

  /** One more tree behind a gap. */
  lemma ParsesNext(js: Text, a: nat, b: nat, ts: seq<Tree>, gap: string, t: Tree)
    requires Parses(js, a, b, ts) && IsGap(gap) && Stands(js, b, gap) && Fits(js, t) && From(t) == b + |gap|
    ensures Parses(js, a, To(t), ts + [t])
  {
    hide Parses, Fits;
    GapSeparates(js, b, gap);
    ParsesGap(js, a, b, b + |gap|, ts);
    ParsesBounds(js, a, b, ts);
    FitsBounds(js, t);
    ParsesMore(js, a, To(t), ts, t);
  }

  // ---------------------------------------------------------------- printed leaves

  predicate IsWordChar(c: char) {
    'a' <= c <= 'z' || '0' <= c <= '9' || c in "E+-."
  }

  predicate AreWordChars(s: string) {
    forall i | 0 <= i < |s| :: IsWordChar(s[i])
  }

  lemma DigitsAreWordChars(s: string)
    requires AllDigits(s)
    ensures AreWordChars(s)
  {
    forall i | 0 <= i < |s| ensures IsWordChar(s[i]) {
      assert IsDigit(s[i]);
    }
  }

  lemma FractionChars(s: string)
    requires IsFraction(s)
    ensures AreWordChars(s)
  {
    if s != "" {
      DigitsAreWordChars(s[1..]);
      assert s == [s[0]] + s[1..];
    }
  }

  lemma ExponentChars(s: string)
    requires IsExponent(s)
    ensures AreWordChars(s)
  {
    if s != "" {
      assert s == [s[0]] + s[1..];
      if Digits(s[1..]) {
        DigitsAreWordChars(s[1..]);
      } else {
        DigitsAreWordChars(s[2..]);
        assert s == [s[0], s[1]] + s[2..];
      }
    }
  }

  lemma WordIsPlain(v: Json)
    requires IsJson(v) && IsAtom(v)
    ensures Print(v) != "" && AreWordChars(Print(v))
  {
    hide Decimal;
    if v.Number? {
      FractionChars(v.fraction);
      ExponentChars(v.exponent);
      DigitsAreWordChars(Decimal(v.whole));
    }
  }

  lemma WordFits(js: Text, v: Json, p: nat)
    requires IsJson(v) && IsAtom(v)
    requires Stands(js, p, Print(v)) && Ends(js, p + |Print(v)|)
    ensures Fits(js, TreeOf(v, p))
  {
    hide Print;
    WordIsPlain(v);
    var s := Print(v);
    forall i | p <= i < p + |s| ensures IsPlain(js[i]) && js[i] !in "{[\"" {
      StandsAt(js, p, s, i - p);
      assert IsWordChar(s[i - p]);
    }
  }

  lemma {:induction false} CharsAreQuoted(js: Text, cs: seq<Char>, p: nat)
    requires AreChars(cs) && Stands(js, p, PrintChars(cs))
    ensures Quoted(js, p, p + |PrintChars(cs)|)
    decreases |cs|
  {
    hide Quoted, Stands, PrintChars, PrintChar, IsChar;
    if cs == [] {
      NothingQuoted(js, p);
      StandsInside(js, p, PrintChars(cs));
    } else {
      var first, more := PrintChar(cs[0]), PrintChars(cs[1..]);
      PrintedChars(cs);
      StandsParts(js, p, first, more);
      CharsAreQuoted(js, cs[1..], p + |first|);
      QuotedChar(js, cs[0], p, p + |first| + |more|);
    }
  }

  lemma StandsInside(js: Text, p: nat, s: string)
    requires Stands(js, p, s)
    ensures p + |s| <= |js|
  {
  }

  lemma NothingQuoted(js: Text, p: nat)
    ensures PrintChars([]) == "" && (p <= |js| ==> Quoted(js, p, p))
  {
  }

  lemma PrintedChars(cs: seq<Char>)
    requires cs != []
    ensures PrintChars(cs) == PrintChar(cs[0]) + PrintChars(cs[1..])
  {
  }

  lemma QuotedChar(js: Text, c: Char, p: nat, b: nat)
    requires IsChar(c) && Stands(js, p, PrintChar(c)) && Quoted(js, p + |PrintChar(c)|, b)
    ensures Quoted(js, p, b)
  {
    StandsAt(js, p, PrintChar(c), 0);
    if c.Escape? {
      StandsAt(js, p, PrintChar(c), 1);
    } else if c.Unicode? {
      StandsAt(js, p, PrintChar(c), 1);
      HexIsQuoted(js, c.digits, p, b);
    }
  }

  lemma HexIsQuoted(js: Text, digits: string, p: nat, b: nat)
    requires |digits| == 4 && (forall i | 0 <= i < 4 :: IsHex(digits[i]))
    requires Stands(js, p, "\\u" + digits) && Quoted(js, p + 6, b)
    ensures Quoted(js, p + 2, b)
  {
    forall i | p + 2 <= i < p + 6 ensures js[i] != '\"' && js[i] != '\\' {
      StandsAt(js, p, "\\u" + digits, i - p);
      assert IsHex(digits[i - p - 2]);
    }
    assert Quoted(js, p + 5, b);
    assert Quoted(js, p + 4, b);
    assert Quoted(js, p + 3, b);
  }

  lemma QuoteFits(js: Text, cs: seq<Char>, p: nat)
    requires AreChars(cs) && Stands(js, p, PrintKey(cs))
    ensures Fits(js, KeyTree(cs, p))
  {
    hide PrintChars, Quoted;
    var s := "\"" + PrintChars(cs) + "\"";
    StandsParts(js, p, "\"" + PrintChars(cs), "\"");
    StandsParts(js, p, "\"", PrintChars(cs));
    StandsAt(js, p, s, 0);
    StandsAt(js, p, s, |s| - 1);
    CharsAreQuoted(js, cs, p + 1);
  }

  // ---------------------------------------------------------------- printed containers

  lemma TreeSpan(v: Json, p: nat)
    requires IsJson(v)
    ensures From(TreeOf(v, p)) == p && To(TreeOf(v, p)) == p + |Print(v)|
  {
  }

  /** A text in brackets stands around its inside. */
  lemma Brackets(js: Text, p: nat, open_: string, inside: string, close: string)
    requires |open_| == 1 && |close| == 1 && Stands(js, p, open_ + inside + close)
    ensures var e := p + |inside| + 2;
            e <= |js| && js[p] == open_[0] && js[e - 1] == close[0] && Stands(js, p + 1, inside)
  {
    var s := open_ + inside + close;
    StandsParts(js, p, open_ + inside, close);
    StandsParts(js, p, open_, inside);
    StandsAt(js, p, s, 0);
    StandsAt(js, p, s, |s| - 1);
  }

  lemma InBrackets(js: Text, p: nat, kind: Kind, inside: string, kids: seq<Tree>)
    requires (kind.Object? || kind.Array?) && Stands(js, p, [Opening(kind)] + inside + [Closing(kind)])
    requires Parses(js, p + 1, p + 1 + |inside|, kids)
    ensures Fits(js, Tree(kind, p, p + |inside| + 2, kids))
  {
    hide Parses, Stands;
    Brackets(js, p, [Opening(kind)], inside, [Closing(kind)]);
  }

  lemma SpaceInside(js: Text, p: nat, open_: string, space: string, content: string, close: string)
    requires |open_| == 1 && |close| == 1 && Stands(js, p, open_ + (space + content) + close) && IsSpace(space)
    requires EndsPrimitive(close[0])
    ensures Separators(js, p + 1, p + 1 + |space|) && Stands(js, p + 1 + |space|, content)
    ensures Ends(js, p + 1 + |space| + |content|)
  {
    hide Separators;
    Brackets(js, p, open_, space + content, close);
    StandsParts(js, p + 1, space, content);
    SpaceIsGap(space);
    GapSeparates(js, p + 1, space);
  }

  /** The text of every value, wherever it is printed, fits the value's tree. */
  lemma {:induction false} PrintFits(js: Text, v: Json, p: nat)
    requires IsJson(v) && Stands(js, p, Print(v)) && Ends(js, p + |Print(v)|)
    ensures Fits(js, TreeOf(v, p))
    decreases v
  {
    hide Parses, Fits, PrintItems, PrintMembers, ItemTrees, MemberTrees, Stands, Separators, Ends, IsSpace, PrintChars,
         PrintNumber, AreChars, IsFraction, IsExponent, IsMemberOk;
    match v
    case List(space, items) =>
      SpaceInside(js, p, "[", space, PrintItems(items), "]");
      ItemsParse(js, p + 1, p + 1 + |space|, items);
      InBrackets(js, p, Array, space + PrintItems(items), ItemTrees(items, p + 1 + |space|));
    case Dict(space, members) =>
      SpaceInside(js, p, "{", space, PrintMembers(members), "}");
      MembersParse(js, p + 1, p + 1 + |space|, members);
      InBrackets(js, p, Object, space + PrintMembers(members), MemberTrees(members, p + 1 + |space|));
    case Quote(chars) => QuoteFits(js, chars, p);
    case _ => WordFits(js, v, p);
  }

  /** What comes after all items or members ends whatever is in front of it. */
  lemma CommaEnds(js: Text, p: nat, n: nat, before: string)
    requires IsSpace(before) && Stands(js, p, Comma(n) + before)
    ensures IsGap(Comma(n) + before) && (n > 0 ==> Ends(js, p))
  {
    SpaceIsGap(before);
    GapsJoin(Comma(n), before);
    if n > 0 {
      GapEnds(js, p, Comma(n) + before);
    }
  }

  /** One more printed value: what is in front of it, its tree, and what comes behind it. */
  lemma NextPrinted(js: Text, a: nat, q: nat, ts: seq<Tree>, gap: string, v: Json, after: string)
    requires Parses(js, a, q, ts) && IsGap(gap) && IsGap(after) && IsJson(v)
    requires Stands(js, q, gap) && Stands(js, q + |gap| + |Print(v)|, after)
    requires Fits(js, TreeOf(v, q + |gap|))
    ensures Parses(js, a, q + |gap| + |Print(v)| + |after|, ts + [TreeOf(v, q + |gap|)])
  {
    hide Parses, Fits, Print, TreeOf, IsJson, IsGap, Stands;
    TreeSpan(v, q + |gap|);
    ParsesNext(js, a, q, ts, gap, TreeOf(v, q + |gap|));
    GapSeparates(js, q + |gap| + |Print(v)|, after);
    ParsesGap(js, a, q + |gap| + |Print(v)|, q + |gap| + |Print(v)| + |after|, ts + [TreeOf(v, q + |gap|)]);
  }

  lemma ThreeParts(js: Text, q: nat, a: string, b: string, c: string)
    requires Stands(js, q, a + b + c)
    ensures Stands(js, q, a) && Stands(js, q + |a|, b) && Stands(js, q + |a| + |b|, c)
  {
    hide Stands;
    StandsParts(js, q, a + b, c);
    StandsParts(js, q, a, b);
  }

  lemma FiveParts(js: Text, q: nat, a: string, b: string, c: string, d: string, e: string)
    requires Stands(js, q, a + b + c + d + e)
    ensures Stands(js, q, a) && Stands(js, q + |a|, b) && Stands(js, q + |a| + |b|, c)
    ensures Stands(js, q + |a| + |b| + |c|, d) && Stands(js, q + |a| + |b| + |c| + |d|, e)
  {
    hide Stands;
    ThreeParts(js, q, a + b + c, d, e);
    ThreeParts(js, q, a, b, c);
  }

  lemma {:induction false} ItemsParse(js: Text, a: nat, p: nat, items: seq<Item>)
    requires Separators(js, a, p) && Stands(js, p, PrintItems(items))
    requires forall i | 0 <= i < |items| :: IsItemOk(items[i])
    requires Ends(js, p + |PrintItems(items)|)
    ensures Parses(js, a, p + |PrintItems(items)|, ItemTrees(items, p))
    decreases items
  {
    hide Print, Fits, Separators, Stands, Ends, IsSpace, IsJson, Comma, TreeOf, Parses;
    if items == [] {
      NoTrees(js, a, p);
    } else {
      var n := |items| - 1;
      var init, last := items[..n], items[n];
      var gap, text, after := Comma(n) + last.before, Print(last.value), last.after;
      var q := p + |PrintItems(init)|;
      assert IsItemOk(last);
      StandsParts(js, p, PrintItems(init), gap + text + after);
      ThreeParts(js, q, gap, text, after);
      CommaEnds(js, q, n, last.before);
      if init == [] {
        NoTrees(js, a, p);
      } else {
        ItemsParse(js, a, p, init);
      }
      SpaceIsGap(after);
      GapEnds(js, q + |gap| + |text|, after);
      PrintFits(js, last.value, q + |gap|);
      NextPrinted(js, a, q, ItemTrees(init, p), gap, last.value, after);
    }
  }

  lemma NoTrees(js: Text, a: nat, p: nat)
    requires Separators(js, a, p)
    ensures Parses(js, a, p, [])
    ensures PrintItems([]) == "" && ItemTrees([], p) == [] && PrintMembers([]) == "" && MemberTrees([], p) == []
  {
  }

  lemma {:induction false} MembersParse(js: Text, a: nat, p: nat, members: seq<Member>)
    requires Separators(js, a, p) && Stands(js, p, PrintMembers(members))
    requires forall i | 0 <= i < |members| :: IsMemberOk(members[i])
    requires Ends(js, p + |PrintMembers(members)|)
    ensures Parses(js, a, p + |PrintMembers(members)|, MemberTrees(members, p))
    decreases members
  {
    hide Print, Fits, Separators, Stands, Ends, IsSpace, IsJson, Comma, TreeOf, Parses, PrintKey, KeyTree, AreChars,
         IsMemberOk;
    if members == [] {
      NoTrees(js, a, p);
    } else {
      var n := |members| - 1;
      var init, m := members[..n], members[n];
      var q := p + |PrintMembers(init)|;
      var gap := Comma(n) + m.before;
      StandsParts(js, p, PrintMembers(init), PrintMember(gap, m));
      StandsInside(js, q, PrintMember(gap, m));
      MemberGap(js, q, n, m);
      if init == [] {
        NoTrees(js, a, p);
      } else {
        MembersParse(js, a, p, init);
      }
      MemberParses(js, a, q, MemberTrees(init, p), gap, m);
    }
  }

  lemma MemberGap(js: Text, q: nat, n: nat, m: Member)
    requires IsMemberOk(m) && Stands(js, q, PrintMember(Comma(n) + m.before, m))
    ensures IsGap(Comma(n) + m.before) && (n > 0 ==> Ends(js, q))
  {
    hide Stands, Ends, IsGap, Print, PrintKey, IsSpace, IsJson;
    FiveParts(js, q, Comma(n) + m.before, PrintKey(m.key), m.left + ":" + m.right, Print(m.value), m.after);
    CommaEnds(js, q, n, m.before);
  }

  /** One more member behind the trees so far. */
  lemma MemberParses(js: Text, a: nat, q: nat, ts: seq<Tree>, gap: string, m: Member)
    requires Parses(js, a, q, ts) && IsMemberOk(m) && IsGap(gap)
    requires Stands(js, q, PrintMember(gap, m)) && Ends(js, q + |PrintMember(gap, m)|)
    ensures var k := q + |gap|;
            Parses(js, a, q + |PrintMember(gap, m)|,
                   ts + [KeyTree(m.key, k)] + [TreeOf(m.value, k + |PrintKey(m.key)| + |m.left + ":" + m.right|)])
    decreases m
  {
    hide Print, Fits, Separators, Stands, Ends, IsGap, IsSpace, IsJson, TreeOf, Parses, PrintKey, KeyTree, AreChars;
    var key, mid, text := PrintKey(m.key), m.left + ":" + m.right, Print(m.value);
    var k := q + |gap| + |key|;
    FiveParts(js, q, gap, key, mid, text, m.after);
    KeyFits(js, a, q, ts, gap, m.key);
    ColonIsGap(m.left, m.right);
    SpaceIsGap(m.after);
    GapEnds(js, k + |mid| + |text|, m.after);
    PrintFits(js, m.value, k + |mid|);
    NextPrinted(js, a, k, ts + [KeyTree(m.key, q + |gap|)], mid, m.value, m.after);
  }

  lemma ColonIsGap(left: string, right: string)
    requires IsSpace(left) && IsSpace(right)
    ensures IsGap(left + ":" + right)
  {
    SpaceIsGap(left);
    SpaceIsGap(right);
    GapsJoin(left, ":");
    GapsJoin(left + ":", right);
  }

  lemma KeyFits(js: Text, a: nat, q: nat, ts: seq<Tree>, gap: string, key: seq<Char>)
    requires Parses(js, a, q, ts) && IsGap(gap) && Stands(js, q, gap) && AreChars(key)
    requires Stands(js, q + |gap|, PrintKey(key))
    ensures Parses(js, a, q + |gap| + |PrintKey(key)|, ts + [KeyTree(key, q + |gap|)])
  {
    hide Parses, PrintChars, Stands;
    QuoteFits(js, key, q + |gap|);
    ParsesNext(js, a, q, ts, gap, KeyTree(key, q + |gap|));
  }

  // ---------------------------------------------------------------- tokens and texts of the tree

  /** One token for each value and each key. */
  function Tokens(v: Json): nat
    decreases v
  {
    match v
    case List(_, items) => 1 + ItemTokens(items)
    case Dict(_, members) => 1 + MemberTokens(members)
    case _ => 1
  }

  function ItemTokens(items: seq<Item>): nat
    decreases items
  {
    if items == [] then 0 else ItemTokens(items[..|items| - 1]) + Tokens(items[|items| - 1].value)
  }

  function MemberTokens(members: seq<Member>): nat
    decreases members
  {
    if members == [] then 0 else MemberTokens(members[..|members| - 1]) + 1 + Tokens(members[|members| - 1].value)
  }

  lemma {:induction false} TokenCount(v: Json, p: nat)
    ensures |Flatten(TreeOf(v, p))| == Tokens(v)
    decreases v
  {
    hide Print, PrintItems, PrintMembers, ItemTrees, MemberTrees, FlattenAll;
    match v
    case List(space, items) => ItemTokenCount(items, p + 1 + |space|);
    case Dict(space, members) => MemberTokenCount(members, p + 1 + |space|);
    case _ => NothingFlat();
  }

  lemma NothingFlat()
    ensures FlattenAll([]) == []
  {
  }

  lemma {:induction false} ItemTokenCount(items: seq<Item>, p: nat)
    ensures |FlattenAll(ItemTrees(items, p))| == ItemTokens(items) && |ItemTrees(items, p)| == |items|
    decreases items
  {
    hide Print, PrintItems, TreeOf, Tokens, Flatten, FlattenAll, Comma;
    NothingFlat();
    if items != [] {
      var n := |items| - 1;
      var at := p + |PrintItems(items[..n])| + |Comma(n) + items[n].before|;
      ItemTokenCount(items[..n], p);
      TokenCount(items[n].value, at);
      FlattenMore(ItemTrees(items[..n], p), TreeOf(items[n].value, at));
    }
  }

  lemma {:induction false} MemberTokenCount(members: seq<Member>, p: nat)
    ensures |FlattenAll(MemberTrees(members, p))| == MemberTokens(members)
    ensures |MemberTrees(members, p)| == 2 * |members|
    decreases members
  {
    hide Print, PrintMembers, PrintKey, KeyTree, TreeOf, Tokens, Flatten, FlattenAll, Comma;
    NothingFlat();
    if members != [] {
      var n := |members| - 1;
      var m := members[n];
      var k := p + |PrintMembers(members[..n])| + |Comma(n) + m.before|;
      var at := k + |PrintKey(m.key)| + |m.left + ":" + m.right|;
      MemberTokenCount(members[..n], p);
      TokenCount(m.value, at);
      KeyToken(m.key, k);
      FlattenMore(MemberTrees(members[..n], p), KeyTree(m.key, k));
      FlattenMore(MemberTrees(members[..n], p) + [KeyTree(m.key, k)], TreeOf(m.value, at));
    }
  }

  lemma KeyToken(key: seq<Char>, p: nat)
    ensures |Flatten(KeyTree(key, p))| == 1
  {
  }

  /** The tree has the value's shape, and every leaf has the text that was printed for it: a string
      and a key what is between the quotes, a number or word all of it. */
  ghost predicate Means(js: Text, v: Json, t: Tree)
    decreases v
  {
    match v
    case List(_, items) =>
      && t.kind.Array? && |t.kids| == |items|
      && forall i | 0 <= i < |items| :: Means(js, items[i].value, t.kids[i])
    case Dict(_, members) =>
      && t.kind.Object? && |t.kids| == 2 * |members|
      && forall i | 0 <= i < |members| :: MeansMember(js, members[i], t.kids[2 * i], t.kids[2 * i + 1])
    case Quote(chars) => t.kind.String? && t.kids == [] && TextOf(js, t) == PrintChars(chars)
    case _ => t.kind.Primitive? && t.kids == [] && TextOf(js, t) == Print(v)
  }

  ghost predicate MeansMember(js: Text, m: Member, key: Tree, value: Tree)
    decreases m
  {
    && key.kind.String? && key.kids == [] && TextOf(js, key) == PrintChars(m.key)
    && Means(js, m.value, value)
  }

  lemma KeyText(js: Text, key: seq<Char>, p: nat)
    requires Stands(js, p, PrintKey(key))
    ensures TextOf(js, KeyTree(key, p)) == PrintChars(key)
  {
    hide PrintChars;
    StandsParts(js, p, "\"" + PrintChars(key), "\"");
    StandsParts(js, p, "\"", PrintChars(key));
  }

  lemma {:induction false} TreeMeans(js: Text, v: Json, p: nat)
    requires Stands(js, p, Print(v))
    ensures Means(js, v, TreeOf(v, p))
    decreases v
  {
    hide PrintItems, PrintMembers, PrintKey, KeyTree, ItemTrees, MemberTrees, Stands, Decimal;
    match v
    case List(space, items) =>
      InsideStands(js, p, "[", space, PrintItems(items), "]");
      ItemsMean(js, items, p + 1 + |space|);
    case Dict(space, members) =>
      InsideStands(js, p, "{", space, PrintMembers(members), "}");
      MembersMean(js, members, p + 1 + |space|);
    case Quote(chars) => QuoteMeans(js, chars, p);
    case _ => WordMeans(js, v, p);
  }

  lemma InsideStands(js: Text, p: nat, open_: string, space: string, content: string, close: string)
    requires |open_| == 1 && |close| == 1 && Stands(js, p, open_ + (space + content) + close)
    ensures Stands(js, p + 1 + |space|, content)
  {
    hide Stands;
    Brackets(js, p, open_, space + content, close);
    StandsParts(js, p + 1, space, content);
  }

  lemma QuoteMeans(js: Text, chars: seq<Char>, p: nat)
    requires Stands(js, p, PrintKey(chars))
    ensures Means(js, Quote(chars), KeyTree(chars, p))
  {
    KeyText(js, chars, p);
  }

  lemma WordMeans(js: Text, v: Json, p: nat)
    requires IsAtom(v) && Stands(js, p, Print(v))
    ensures Means(js, v, TreeOf(v, p))
  {
    hide Print;
  }

  lemma {:induction false} ItemsMean(js: Text, items: seq<Item>, p: nat)
    requires Stands(js, p, PrintItems(items))
    ensures |ItemTrees(items, p)| == |items|
    ensures forall i | 0 <= i < |items| :: Means(js, items[i].value, ItemTrees(items, p)[i])
    decreases items
  {
    hide Print, TreeOf, Means, Comma, Stands;
    if items != [] {
      var n := |items| - 1;
      var init, last := items[..n], items[n];
      var gap, text := Comma(n) + last.before, Print(last.value);
      var q := p + |PrintItems(init)|;
      StandsParts(js, p, PrintItems(init), gap + text + last.after);
      ThreeParts(js, q, gap, text, last.after);
      ItemsMean(js, init, p);
      TreeMeans(js, last.value, q + |gap|);
      forall i | 0 <= i < |items| ensures Means(js, items[i].value, ItemTrees(items, p)[i]) {
        if i < n {
          assert init[i] == items[i];
        }
      }
    }
  }

  lemma {:induction false} MembersMean(js: Text, members: seq<Member>, p: nat)
    requires Stands(js, p, PrintMembers(members))
    ensures |MemberTrees(members, p)| == 2 * |members|
    ensures var ts := MemberTrees(members, p);
            forall i | 0 <= i < |members| :: MeansMember(js, members[i], ts[2 * i], ts[2 * i + 1])
    decreases members
  {
    hide Print, TreeOf, Means, MeansMember, Comma, Stands, PrintKey, KeyTree;
    if members != [] {
      var n := |members| - 1;
      var init, m := members[..n], members[n];
      var gap, key, mid, text := Comma(n) + m.before, PrintKey(m.key), m.left + ":" + m.right, Print(m.value);
      var q := p + |PrintMembers(init)|;
      StandsParts(js, p, PrintMembers(init), gap + key + mid + text + m.after);
      FiveParts(js, q, gap, key, mid, text, m.after);
      MembersMean(js, init, p);
      MemberMeans(js, m, q + |gap|, q + |gap| + |key| + |mid|);
      var ts := MemberTrees(members, p);
      forall i | 0 <= i < |members| ensures MeansMember(js, members[i], ts[2 * i], ts[2 * i + 1]) {
        if i < n {
          assert init[i] == members[i];
        }
      }
    }
  }

  lemma MemberMeans(js: Text, m: Member, k: nat, at: nat)
    requires Stands(js, k, PrintKey(m.key)) && Stands(js, at, Print(m.value))
    ensures MeansMember(js, m, KeyTree(m.key, k), TreeOf(m.value, at))
    decreases m
  {
    hide Print, TreeOf, Means, Stands;
    KeyText(js, m.key, k);
    TreeMeans(js, m.value, at);
  }

  // ---------------------------------------------------------------- printed texts are parsed

  ghost predicate Clean(s: string) {
    forall i | 0 <= i < |s| :: s[i] != '\0'
  }

  lemma {:induction false} CharsAreClean(cs: seq<Char>)
    requires AreChars(cs)
    ensures Clean(PrintChars(cs))
    decreases |cs|
  {
    hide IsChar;
    if cs != [] {
      CharsAreClean(cs[1..]);
      assert IsChar(cs[0]);
      CharIsClean(cs[0]);
    }
  }

  lemma CharIsClean(c: Char)
    requires IsChar(c)
    ensures Clean(PrintChar(c))
  {
    if c.Unicode? {
      forall i | 0 <= i < 4 ensures c.digits[i] != '\0' {
        assert IsHex(c.digits[i]);
      }
    }
  }

  lemma KeyIsClean(cs: seq<Char>)
    requires AreChars(cs)
    ensures Clean(PrintKey(cs))
  {
    CharsAreClean(cs);
  }

  lemma SpaceIsClean(s: string)
    requires IsSpace(s)
    ensures Clean(s)
  {
  }

  /** A printed text has no NUL, so it is one the parser can be given. */
  lemma {:induction false} PrintedIsClean(v: Json)
    requires IsJson(v)
    ensures Clean(Print(v))
    decreases v
  {
    hide PrintItems, PrintMembers, PrintKey, AreChars, IsSpace, IsItemOk, IsMemberOk, AreWordChars;
    match v
    case List(space, items) =>
      SpaceIsClean(space);
      ItemsAreClean(items);
    case Dict(space, members) =>
      SpaceIsClean(space);
      MembersAreClean(members);
    case Quote(chars) => KeyIsClean(chars);
    case _ => WordIsClean(v);
  }

  lemma WordIsClean(v: Json)
    requires IsJson(v) && IsAtom(v)
    ensures Clean(Print(v))
  {
    hide Print;
    WordIsPlain(v);
    forall i | 0 <= i < |Print(v)| ensures Print(v)[i] != '\0' {
      assert IsWordChar(Print(v)[i]);
    }
  }

  lemma {:induction false} ItemsAreClean(items: seq<Item>)
    requires forall i | 0 <= i < |items| :: IsItemOk(items[i])
    ensures Clean(PrintItems(items))
    decreases items
  {
    hide Print, IsSpace, IsJson;
    if items != [] {
      var n := |items| - 1;
      assert IsItemOk(items[n]);
      ItemsAreClean(items[..n]);
      SpaceIsClean(items[n].before);
      PrintedIsClean(items[n].value);
      SpaceIsClean(items[n].after);
    }
  }

  lemma {:induction false} MembersAreClean(members: seq<Member>)
    requires forall i | 0 <= i < |members| :: IsMemberOk(members[i])
    ensures Clean(PrintMembers(members))
    decreases members
  {
    hide Print, PrintKey, IsSpace, IsJson, AreChars;
    if members != [] {
      var n := |members| - 1;
      var m := members[n];
      assert IsMemberOk(m);
      MembersAreClean(members[..n]);
      SpaceIsClean(m.before);
      KeyIsClean(m.key);
      SpaceIsClean(m.left);
      SpaceIsClean(m.right);
      PrintedIsClean(m.value);
      SpaceIsClean(m.after);
    }
  }

  /** The text is that of the value, with space around it. */
  ghost predicate IsDocument(js: Text, before: string, v: Json, after: string) {
    IsJson(v) && IsSpace(before) && IsSpace(after) && js == before + Print(v) + after
  }

  lemma PrintedInGrammar(js: Text, before: string, v: Json, after: string)
    requires IsDocument(js, before, v, after)
    ensures Parses(js, 0, |js|, [TreeOf(v, |before|)])
    ensures Means(js, v, TreeOf(v, |before|))
  {
    hide *;
    WholeStands(js, before, v, after);
    SpacedParses(js, |before|, v, before, after);
  }

  lemma SpacedParses(js: Text, p: nat, v: Json, before: string, after: string)
    requires IsJson(v) && IsSpace(before) && IsSpace(after) && |before| == p
    requires Stands(js, 0, before) && Stands(js, p, Print(v)) && Stands(js, p + |Print(v)|, after)
    requires |js| == p + |Print(v)| + |after|
    ensures Parses(js, 0, |js|, [TreeOf(v, p)]) && Means(js, v, TreeOf(v, p))
  {
    hide *;
    SpaceIsGap(before);
    SpaceIsGap(after);
    SurroundedParses(js, p, v, before, after);
    TreeMeans(js, v, p);
  }

  lemma SurroundedParses(js: Text, p: nat, v: Json, before: string, after: string)
    requires IsJson(v) && IsGap(before) && IsGap(after) && |before| == p
    requires Stands(js, 0, before) && Stands(js, p, Print(v)) && Stands(js, p + |Print(v)|, after)
    requires |js| == p + |Print(v)| + |after|
    ensures Parses(js, 0, |js|, [TreeOf(v, p)])
  {
    hide Print, TreeOf, Parses, IsJson, Separators, Stands, Ends, IsGap;
    EndEnds(js);
    GapEnds(js, p + |Print(v)|, after);
    GapSeparates(js, 0, before);
    GapSeparates(js, p + |Print(v)|, after);
    AloneParses(js, v, p);
  }

  lemma AloneParses(js: Text, v: Json, p: nat)
    requires IsJson(v) && Stands(js, p, Print(v)) && Ends(js, p + |Print(v)|)
    requires Separators(js, 0, p) && Separators(js, p + |Print(v)|, |js|)
    ensures Parses(js, 0, |js|, [TreeOf(v, p)])
  {
    hide Print, TreeOf, Parses, Fits, IsJson, Separators, Stands, Ends;
    var t := TreeOf(v, p);
    PrintFits(js, v, p);
    TreeSpan(v, p);
    NoTrees(js, 0, p);
    FitsBounds(js, t);
    ParsesMore(js, 0, To(t), [], t);
    assert [] + [t] == [t];
    ParsesGap(js, 0, To(t), |js|, [t]);
  }

  lemma WholeStands(js: Text, before: string, v: Json, after: string)
    requires IsDocument(js, before, v, after)
    ensures IsJson(v) && IsSpace(before) && IsSpace(after)
    ensures Stands(js, 0, before) && Stands(js, |before|, Print(v)) && Stands(js, |before| + |Print(v)|, after)
    ensures |js| == |before| + |Print(v)| + |after|
  {
    hide Print, IsJson, IsSpace;
    var text := Print(v);
    assert js[..|before|] == before;
    assert js[|before|..|before| + |text|] == text;
    assert js[|before| + |text|..] == after;
  }

  lemma EndEnds(js: Text)
    ensures Ends(js, |js|)
  {
  }

  lemma TreeCount(v: Json, p: nat)
    ensures |FlattenAll([TreeOf(v, p)])| == Tokens(v)
  {
    hide TreeOf, Tokens, Flatten;
    TokenCount(v, p);
    FlattenMore([], TreeOf(v, p));
    assert [] + [TreeOf(v, p)] == [TreeOf(v, p)];
  }

  lemma OnlyForest(js: Text, f: seq<Tree>, g: seq<Tree>)
    requires Parses(js, 0, |js|, f) && Parses(js, 0, |js|, g)
    ensures f == g
  {
    hide Parses, Run;
    var num := |FlattenAll(f)| + |FlattenAll(g)|;
    RunIffParses(js, num, f);
    RunIffParses(js, num, g);
  }

  /** Every JSON text, with any white space, is accepted if there is room for its tokens and only then,
      and what the parser finds in it is the value that was printed. */
  lemma PrintedIsParsed(js: Text, before: string, v: Json, after: string, num: nat)
    requires IsDocument(js, before, v, after)
    ensures var t := TreeOf(v, |before|);
            && Means(js, v, t)
            && if Tokens(v) <= num then Run(js, num, START) == Parsed([t]) else Run(js, num, START).Failed?
  {
    hide TreeOf, Means, Parses, Run, Tokens, FlattenAll, IsDocument;
    var t := TreeOf(v, |before|);
    PrintedInGrammar(js, before, v, after);
    TreeCount(v, |before|);
    RunIffParses(js, num, [t]);
    var r := Run(js, num, START);
    if r.Parsed? {
      RunIffParses(js, num, r.forest);
      OnlyForest(js, [t], r.forest);
    }
  }

  // ---------------------------------------------------------------- beyond JSON

  /** Printable characters that neither separate values nor close a container. */
  predicate IsBare(s: string) {
    forall i | 0 <= i < |s| :: '!' <= s[i] <= '~' && s[i] !in ":,]}"
  }

  /** Built without JSMN_STRICT, the parser takes any bare word for one primitive. */
  lemma BareWordIsPrimitive(js: Text, num: nat)
    requires js != "" && IsBare(js) && js[0] !in "{[\"" && 1 <= num
    ensures Run(js, num, START) == Parsed([Tree(Primitive, 0, |js|, [])])
  {
    hide Run, Parses;
    var t := Tree(Primitive, 0, |js|, []);
    assert Fits(js, t);
    NoTrees(js, 0, 0);
    ParsesMore(js, 0, |js|, [], t);
    assert [] + [t] == [t];
    assert |FlattenAll([t])| == 1 by {
      NothingFlat();
      FlattenMore([], t);
      NothingFlatBelow(t);
    }
    RunIffParses(js, num, [t]);
  }

  lemma NothingFlatBelow(t: Tree)
    requires t.kids == []
    ensures |Flatten(t)| == 1
  {
  }

  lemma {:induction false} ScanPassesChars(js: Text, cs: seq<Char>, p: nat)
    requires AreChars(cs) && Stands(js, p, PrintChars(cs))
    ensures ScanString(js, p) == ScanString(js, p + |PrintChars(cs)|)
    decreases |cs|
  {
    hide Stands, PrintChars, PrintChar, IsChar, ScanString;
    if cs == [] {
      NothingQuoted(js, p);
    } else {
      var first, more := PrintChar(cs[0]), PrintChars(cs[1..]);
      PrintedChars(cs);
      StandsParts(js, p, first, more);
      ScanPassesChar(js, cs[0], p);
      ScanPassesChars(js, cs[1..], p + |first|);
    }
  }

  lemma ScanPassesChar(js: Text, c: Char, p: nat)
    requires IsChar(c) && Stands(js, p, PrintChar(c))
    ensures ScanString(js, p) == ScanString(js, p + |PrintChar(c)|)
  {
    StandsAt(js, p, PrintChar(c), 0);
    if c.Escape? {
      StandsAt(js, p, PrintChar(c), 1);
    } else if c.Unicode? {
      StandsAt(js, p, PrintChar(c), 1);
      ScanPassesHex(js, c.digits, p);
    }
  }

  lemma ScanPassesHex(js: Text, digits: string, p: nat)
    requires |digits| == 4 && (forall i | 0 <= i < 4 :: IsHex(digits[i])) && Stands(js, p, "\\u" + digits)
    ensures ScanString(js, p + 2) == ScanString(js, p + 6)
  {
    forall i | p + 2 <= i < p + 6 ensures js[i] != '\"' && js[i] != '\\' {
      StandsAt(js, p, "\\u" + digits, i - p);
      assert IsHex(digits[i - p - 2]);
    }
    assert ScanString(js, p + 5) == ScanString(js, p + 6);
    assert ScanString(js, p + 4) == ScanString(js, p + 5);
    assert ScanString(js, p + 3) == ScanString(js, p + 4);
  }

  /** A text that starts with a string in which a backslash escapes anything but the nine characters of
      section 7, or the end of the text, is refused as invalid. */
  lemma BadEscapeIsInvalid(js: Text, cs: seq<Char>, num: nat)
    requires AreChars(cs) && Stands(js, 0, "\"" + PrintChars(cs) + "\\")
    requires var p := |PrintChars(cs)| + 2; p == |js| || js[p] !in "\"\\/bfnrtu"
    ensures Run(js, num, START) == Failed(Invalid)
  {
    hide PrintChars, Stands, ScanString;
    var q := |PrintChars(cs)| + 1;
    StandsParts(js, 0, "\"" + PrintChars(cs), "\\");
    StandsParts(js, 0, "\"", PrintChars(cs));
    StandsAt(js, 0, "\"", 0);
    StandsAt(js, q, "\\", 0);
    StandsInside(js, q, "\\");
    ScanPassesChars(js, cs, 1);
    ScanFails(js, q);
    assert Step(js, num, START) == Fails(Invalid);
  }

  lemma ScanFails(js: Text, q: nat)
    requires q < |js| && js[q] == '\\' && (q + 1 == |js| || js[q + 1] !in "\"\\/bfnrtu")
    ensures ScanString(js, q) == Wrong(Invalid)
  {
  }

  /** A control character or one beyond ASCII in a bare word is refused as invalid. */
  lemma {:induction false} BadCharIsInvalid(js: Text, q: nat, num: nat)
    requires 0 < q < |js| && IsBare(js[..q]) && js[0] !in "{[\""
    requires js[q] !in " \t\n\r" && !('!' <= js[q] <= '~')
    ensures Run(js, num, START) == Failed(Invalid)
  {
    assert js[0] == js[..q][0];
    ScanStops(js, 0, q);
    assert Step(js, num, START) == Fails(Invalid);
  }

  lemma {:induction false} ScanStops(js: Text, p: nat, q: nat)
    requires p <= q < |js| && (forall i | p <= i < q :: '!' <= js[..q][i] <= '~' && js[..q][i] !in ":,]}")
    requires js[q] !in " \t\n\r" && !('!' <= js[q] <= '~')
    ensures ScanPrimitive(js, p) == Wrong(Invalid)
    decreases q - p
  {
    if p < q {
      assert js[p] == js[..q][p];
      ScanStops(js, p + 1, q);
    }
  }

  // ---------------------------------------------------------------- looking up printed members

  function KindOf(v: Json): Kind {
    match v
    case List(_, _) => Array
    case Dict(_, _) => Object
    case Quote(_) => String
    case _ => Primitive
  }

  /** What find_int should make of a value: a number's whole part, or the nearest one that fits. */
  function IntOf(v: Json): int {
    if !v.Number? then 0 else Nearest(if v.negative then 0 - v.whole else v.whole)
  }

  lemma AtomReads(v: Json)
    requires IsJson(v) && IsAtom(v)
    ensures Strtoll(Print(v)) == IntOf(v)
  {
    hide Strtoll, Decimal;
    if v.Number? {
      var sign, rest := if v.negative then "-" else "", v.fraction + v.exponent;
      StrtollReads("", sign, 0, v.whole, rest);
      assert Zeros(0) + Decimal(v.whole) + rest == Decimal(v.whole) + rest;
      assert "" + (sign + (Decimal(v.whole) + rest)) == Print(v);
    } else {
      StrtollZero("", "", Print(v));
      assert "" + ("" + Print(v)) == Print(v);
    }
  }

  lemma OnlyTrueIsTrue(v: Json)
    requires IsAtom(v)
    ensures Print(v) == "true" <==> v.True?
  {
    hide Decimal;
    if v.Number? {
      assert IsDigit(Decimal(v.whole)[0]);
      assert Print(v)[0] == if v.negative then '-' else Decimal(v.whole)[0];
    }
  }

  /** Member i of the object has this key and a value of this kind. */
  predicate HasMember(v: Json, i: int, key: string, kind: Kind)
    requires v.Dict?
  {
    0 <= i < |v.members| && PrintChars(v.members[i].key) == key && KindOf(v.members[i].value) == kind
  }

  lemma MeansKind(js: Text, v: Json, t: Tree)
    requires Means(js, v, t)
    ensures t.kind == KindOf(v)
    ensures IsAtom(v) ==> TextOf(js, t) == Print(v)
    ensures v.Quote? ==> TextOf(js, t) == PrintChars(v.chars)
  {
    hide Print, PrintChars, TextOf;
  }

  lemma MemberIff(js: Text, v: Json, t: Tree, i: int, key: string, kind: Kind)
    requires v.Dict? && Means(js, v, t)
    ensures IsMember(js, t, i, key, kind) <==> HasMember(v, i, key, kind)
    ensures HasMember(v, i, key, kind) ==> 2 * i + 1 < |t.kids| && Means(js, v.members[i].value, t.kids[2 * i + 1])
  {
    hide PrintChars, TextOf;
    if 0 <= i < |v.members| {
      assert MeansMember(js, v.members[i], t.kids[2 * i], t.kids[2 * i + 1]);
      MeansKind(js, v.members[i].value, t.kids[2 * i + 1]);
    }
  }

  lemma DocumentIsJson(js: Text, before: string, v: Json, after: string)
    requires IsDocument(js, before, v, after)
    ensures IsJson(v)
  {
  }

  lemma MemberIsJson(v: Json, i: nat)
    requires IsJson(v) && v.Dict? && i < |v.members|
    ensures IsJson(v.members[i].value)
  {
    assert IsMemberOk(v.members[i]);
  }

  lemma PrintedIsReady(js: Text, before: string, v: Json, after: string, num: nat, buf: seq<char>)
    requires IsDocument(js, before, v, after)
    requires Tokens(v) <= num && buf == js + ['\0']
    ensures var t := TreeOf(v, |before|);
            && Run(js, num, START) == Parsed([t]) && Means(js, v, t)
            && Ready(js, FlattenAll([t]), 0, t, buf)
  {
    hide IsDocument, TreeOf, Means, Run, Tokens, Ready, FlattenAll, Parses;
    var t := TreeOf(v, |before|);
    PrintedIsParsed(js, before, v, after, num);
    RunIffParses(js, num, [t]);
    ParsedIsReady(js, [t], 0);
    NothingFlat();
    assert [t][..0] == [];
  }

  /** jsmn_parse on a printed object: everything the lookups need. */
  method ParsePrinted(js: Text, tokens: array<Token>, buf: array<char>, ghost before: string, ghost v: Json,
    ghost after: string)
    returns (ghost n: nat, ghost t: Tree)
    requires IsDocument(js, before, v, after)
    requires Tokens(v) <= tokens.Length && buf[..] == js + ['\0']
    modifies tokens
    ensures n <= tokens.Length && Ready(js, tokens[..n], 0, t, buf[..]) && Means(js, v, t)
  {
    hide IsDocument, TreeOf, Means, Run, Tokens, Ready, FlattenAll, Parses;
    t := TreeOf(v, |before|);
    PrintedIsReady(js, before, v, after, tokens.Length, buf[..]);
    var parser := new JsmnParser();
    var r;
    ghost var forest;
    r, forest := parser.Parse(js, tokens);
    n := parser.toknext;
  }

  /** The members a lookup sees are those of the printed object. */
  lemma SameMembers(js: Text, v: Json, t: Tree, key: string, kind: Kind)
    requires v.Dict? && Means(js, v, t)
    ensures t.kind.Object? && |t.kids| / 2 == |v.members|
    ensures forall j :: HasMember(v, j, key, kind) ==> 0 <= j < |v.members|
    ensures forall j: int :: IsMember(js, t, j, key, kind) <==> HasMember(v, j, key, kind)
  {
    hide Means, HasMember, IsMember;
    forall j: int ensures IsMember(js, t, j, key, kind) <==> HasMember(v, j, key, kind) {
      MemberIff(js, v, t, j, key, kind);
    }
    MembersInRange(v, t, js, key, kind);
  }

  /** find_int on a parsed object: the whole part of the first number of that name, 0 if that member is
      a word, or nothing found. */
  method ReadInt(js: Text, tokens: array<Token>, buf: array<char>, key: string,
    ghost before: string, ghost v: Json, ghost after: string)
    returns (value: int, found: bool, ghost i: nat)
    requires IsDocument(js, before, v, after) && v.Dict?
    requires Tokens(v) <= tokens.Length && buf[..] == js + ['\0']
    modifies tokens, buf
    ensures found ==> HasMember(v, i, key, Primitive) && value == IntOf(v.members[i].value)
    ensures found ==> forall j | 0 <= j < i :: !HasMember(v, j, key, Primitive)
    ensures !found ==> value == 0 && forall j :: !HasMember(v, j, key, Primitive)
  {
    hide Print, Means, Tokens, IsDocument, IsJson, Ready, IsMember, HasMember, TextOf, Strtoll;
    ghost var n, t := ParsePrinted(js, tokens, buf, before, v, after);
    SameMembers(js, v, t, key, Primitive);
    value, found, i := FindInt(tokens, n, 0, buf, key, js, t);
    if found {
      MemberIff(js, v, t, i, key, Primitive);
      MemberAt(v, i, key, Primitive);
      MeansKind(js, v.members[i].value, t.kids[2 * i + 1]);
      DocumentIsJson(js, before, v, after);
      MemberIsJson(v, i);
      AtomReads(v.members[i].value);
    }
  }

  /** find_bool: whether the first number or word of that name is the word true. */
  method ReadBool(js: Text, tokens: array<Token>, buf: array<char>, key: string,
    ghost before: string, ghost v: Json, ghost after: string)
    returns (value: bool, ghost found: bool, ghost i: nat)
    requires IsDocument(js, before, v, after) && v.Dict?
    requires Tokens(v) <= tokens.Length && buf[..] == js + ['\0']
    modifies tokens, buf
    ensures found ==> HasMember(v, i, key, Primitive) && forall j | 0 <= j < i :: !HasMember(v, j, key, Primitive)
    ensures !found ==> forall j :: !HasMember(v, j, key, Primitive)
    ensures value <==> found && v.members[i].value.True?
  {
    hide Print, Means, Tokens, IsDocument, IsJson, Ready, IsMember, HasMember, TextOf;
    ghost var n, t := ParsePrinted(js, tokens, buf, before, v, after);
    SameMembers(js, v, t, key, Primitive);
    value, found, i := FindBool(tokens, n, 0, buf, key, js, t);
    if found {
      MemberIff(js, v, t, i, key, Primitive);
      MemberAt(v, i, key, Primitive);
      MeansKind(js, v.members[i].value, t.kids[2 * i + 1]);
      OnlyTrueIsTrue(v.members[i].value);
    }
  }

  /** find_string: the characters between the quotes of the first string of that name, as printed. */
  method ReadText(js: Text, tokens: array<Token>, buf: array<char>, key: string,
    ghost before: string, ghost v: Json, ghost after: string)
    returns (text: string, found: bool, ghost i: nat)
    requires IsDocument(js, before, v, after) && v.Dict?
    requires Tokens(v) <= tokens.Length && buf[..] == js + ['\0']
    modifies tokens, buf
    ensures found ==> HasMember(v, i, key, String) && text == PrintChars(v.members[i].value.chars)
    ensures found ==> forall j | 0 <= j < i :: !HasMember(v, j, key, String)
    ensures !found ==> text == "" && forall j :: !HasMember(v, j, key, String)
  {
    hide Print, Means, Tokens, IsDocument, IsJson, Ready, IsMember, HasMember, TextOf, PrintChars;
    ghost var n, t := ParsePrinted(js, tokens, buf, before, v, after);
    SameMembers(js, v, t, key, String);
    text, found, i := FindText(tokens, n, 0, buf, key, String, js, t);
    if found {
      MemberIff(js, v, t, i, key, String);
      MemberAt(v, i, key, String);
      MeansKind(js, v.members[i].value, t.kids[2 * i + 1]);
    }
  }

  lemma MemberAt(v: Json, i: int, key: string, kind: Kind)
    requires v.Dict? && HasMember(v, i, key, kind)
    ensures 0 <= i < |v.members| && KindOf(v.members[i].value) == kind
  {
  }

  lemma MembersInRange(v: Json, t: Tree, js: Text, key: string, kind: Kind)
    requires v.Dict? && Means(js, v, t)
    ensures t.kind.Object? && |t.kids| / 2 == |v.members|
    ensures forall j :: HasMember(v, j, key, kind) ==> 0 <= j < |v.members|
  {
  }
}
