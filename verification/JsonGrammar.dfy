/** The language src/jsmn.c accepts (built without JSMN_STRICT), as a grammar of trees, and a
    one-pass machine for it. Positions are offsets into a NUL-terminated text. */
module JsonGrammar {

  datatype Kind = Primitive | Object | Array | String

  /** A value and where it stands: for a string, what is between its quotes. */
  datatype Tree = Tree(kind: Kind, start: int, end: int, kids: seq<Tree>)

  datatype Token = Token(kind: Kind, start: int, end: int, size: int)

  // ---------------------------------------------------------------- characters

  type Text = s: string | '\0' !in s

  /** The character at a position; behind the last one is the terminating NUL. */
  function At(js: Text, p: nat): char {
    if p < |js| then js[p] else '\0'
  }

  predicate IsSeparator(c: char) {
    c == '\t' || c == '\r' || c == '\n' || c == ' ' || c == ':' || c == ','
  }

  /** What ends a primitive, besides the end of the text. */
  predicate EndsPrimitive(c: char) {
    IsSeparator(c) || c == ']' || c == '}'
  }

  predicate IsPlain(c: char) {
    !EndsPrimitive(c) && 32 <= c as int < 127
  }

  predicate IsEscaped(c: char) {
    c == '\"' || c == '/' || c == '\\' || c == 'b' || c == 'f' || c == 'r' || c == 'n' || c == 't' || c == 'u'
  }

  predicate StartsPrimitive(c: char) {
    IsPlain(c) && c != '{' && c != '[' && c != '\"'
  }

  function Opening(k: Kind): char {
    if k.Object? then '{' else '['
  }

  function Closing(k: Kind): char {
    if k.Object? then '}' else ']'
  }

  // ---------------------------------------------------------------- the grammar

  ghost predicate Separators(js: Text, a: nat, b: nat) {
    a <= b <= |js| && forall i | a <= i < b :: IsSeparator(js[i])
  }

  ghost predicate Plain(js: Text, a: nat, b: nat) {
    a <= b <= |js| && forall i | a <= i < b :: IsPlain(js[i])
  }

  /** Characters other than quotes, where a backslash escapes the next one. */
  ghost predicate Quoted(js: Text, a: nat, b: nat)
    decreases b - a
  {
    a <= b <= |js|
    && (a < b ==>
          if js[a] == '\\' then a + 2 <= b && IsEscaped(js[a + 1]) && Quoted(js, a + 2, b)
          else js[a] != '\"' && Quoted(js, a + 1, b))
  }

  function From(t: Tree): int {
    if t.kind.String? then t.start - 1 else t.start
  }

  function To(t: Tree): int {
    if t.kind.String? then t.end + 1 else t.end
  }

  /** The text of a tree is a value of its kind. */
  ghost predicate Fits(js: Text, t: Tree)
    decreases t
  {
    && 0 <= From(t) < To(t) <= |js|
    && match t.kind
       case Primitive =>
         t.kids == [] && StartsPrimitive(js[t.start]) && Plain(js, t.start, t.end)
         && (t.end < |js| ==> EndsPrimitive(js[t.end]))
       case String =>
         t.kids == [] && t.start <= t.end && js[t.start - 1] == '\"' && js[t.end] == '\"' && Quoted(js, t.start, t.end)
       case _ =>
         t.start + 1 < t.end && js[t.start] == Opening(t.kind) && js[t.end - 1] == Closing(t.kind)
         && Parses(js, t.start + 1, t.end - 1, t.kids)
  }

  /** The text from a to b is these trees, in order, with only separators between them. */
  ghost predicate Parses(js: Text, a: nat, b: nat, ts: seq<Tree>)
    decreases ts
  {
    if ts == [] then Separators(js, a, b)
    else
      var last := ts[|ts| - 1];
      && Fits(js, last) && a <= From(last) && To(last) <= b && Separators(js, To(last), b)
      && Parses(js, a, From(last), ts[..|ts| - 1])
  }

  // ---------------------------------------------------------------- tokens

  /** The tokens of a tree in pre-order; a container's size counts its direct children. */
  function Flatten(t: Tree): seq<Token>
    decreases t
  {
    [Token(t.kind, t.start, t.end, |t.kids|)] + FlattenAll(t.kids)
  }

  function FlattenAll(ts: seq<Tree>): seq<Token>
    decreases ts
  {
    if ts == [] then [] else FlattenAll(ts[..|ts| - 1]) + Flatten(ts[|ts| - 1])
  }

  // ---------------------------------------------------------------- the machine

  /** A container that has been opened, and its children so far. The first frame is the top level. */
  datatype Frame = Frame(kind: Kind, start: int, kids: seq<Tree>)

  datatype State = State(pos: nat, frames: seq<Frame>)

  datatype Error = NoMemory | Invalid | Partial

  datatype Outcome = Parsed(forest: seq<Tree>) | Failed(error: Error)

  datatype Scan = Found(at: nat) | Wrong(error: Error)

  const TOP := Frame(Array, -1, [])

  function ScanPrimitive(js: Text, p: nat): (r: Scan)
    ensures r.Found? ==> p <= r.at
    decreases |js| - p
  {
    if p >= |js| then Found(p)
    else if EndsPrimitive(js[p]) then Found(p)
    else if js[p] as int < 32 || js[p] as int >= 127 then Wrong(Invalid)
    else ScanPrimitive(js, p + 1)
  }

  /** The position of the closing quote. */
  function ScanString(js: Text, p: nat): (r: Scan)
    ensures r.Found? ==> p <= r.at < |js|
    decreases |js| - p
  {
    if p >= |js| then Wrong(Partial)
    else if js[p] == '\"' then Found(p)
    else if js[p] == '\\' then
      if IsEscaped(At(js, p + 1)) then ScanString(js, p + 2) else Wrong(Invalid)
    else ScanString(js, p + 1)
  }

  /** The tokens allocated so far; `extra` is 1 for a frame whose last child is still open. */
  function Layout(frames: seq<Frame>, extra: int): seq<Token>
    decreases |frames|
  {
    if frames == [] then []
    else
      var f := frames[|frames| - 1];
      (if |frames| == 1 then [] else Layout(frames[..|frames| - 1], 1) + [Token(f.kind, f.start, -1, |f.kids| + extra)])
      + FlattenAll(f.kids)
  }

  function Count(s: State): nat {
    |Layout(s.frames, 0)|
  }

  function Add(frames: seq<Frame>, t: Tree): seq<Frame>
    requires frames != []
  {
    var n := |frames| - 1;
    frames[..n] + [frames[n].(kids := frames[n].kids + [t])]
  }

  /** One turn of the main loop. */
  datatype Turn = Next(state: State) | Fails(error: Error)

  function Leaf(js: Text, num: nat, s: State, kind: Kind, from: nat, scan: Scan): Turn
    requires s.frames != []
  {
    if scan.Wrong? then Fails(scan.error)
    else if Count(s) >= num then Fails(NoMemory)
    else
      var t := Tree(kind, from, scan.at, []);
      Next(State(if kind.String? then scan.at + 1 else scan.at, Add(s.frames, t)))
  }

  function Close(s: State, kind: Kind): Turn
    requires s.frames != []
  {
    var n := |s.frames| - 1;
    if n == 0 || s.frames[n].kind != kind then Fails(Invalid)
    else Next(State(s.pos + 1, Add(s.frames[..n], Tree(kind, s.frames[n].start, s.pos + 1, s.frames[n].kids))))
  }

  function Open(num: nat, s: State, kind: Kind): Turn {
    if Count(s) >= num then Fails(NoMemory) else Next(State(s.pos + 1, s.frames + [Frame(kind, s.pos, [])]))
  }

  function Step(js: Text, num: nat, s: State): Turn
    requires s.pos < |js| && s.frames != []
  {
    var c := js[s.pos];
    if c == '{' then Open(num, s, Object)
    else if c == '[' then Open(num, s, Array)
    else if c == '}' then Close(s, Object)
    else if c == ']' then Close(s, Array)
    else if c == '\"' then Leaf(js, num, s, String, s.pos + 1, ScanString(js, s.pos + 1))
    else if IsSeparator(c) then Next(s.(pos := s.pos + 1))
    else Leaf(js, num, s, Primitive, s.pos, ScanPrimitive(js, s.pos))
  }

  lemma StepAdvances(js: Text, num: nat, s: State)
    requires s.pos < |js| && s.frames != []
    ensures Step(js, num, s).Next? ==>
              s.pos < Step(js, num, s).state.pos && Step(js, num, s).state.frames != []
  {
    hide Count, Layout;
    if StartsPrimitive(js[s.pos]) {
      assert ScanPrimitive(js, s.pos) == ScanPrimitive(js, s.pos + 1);
    }
  }

  function Run(js: Text, num: nat, s: State): Outcome
    requires s.frames != []
    decreases |js| - s.pos
  {
    if s.pos >= |js| then
      if |s.frames| == 1 then Parsed(s.frames[0].kids) else Failed(Partial)
    else
      StepAdvances(js, num, s);
      var turn := Step(js, num, s);
      if turn.Fails? then Failed(turn.error) else Run(js, num, turn.state)
  }

  const START := State(0, [TOP])

  // ---------------------------------------------------------------- scanning

  lemma {:induction false} PrimitiveScanned(js: Text, p: nat, e: nat)
    requires p <= |js|
    ensures ScanPrimitive(js, p) == Found(e) <==> p <= e && Plain(js, p, e) && (e < |js| ==> EndsPrimitive(js[e]))
    decreases |js| - p
  {
    if p < |js| && IsPlain(js[p]) {
      PrimitiveScanned(js, p + 1, e);
    }
  }

  lemma {:induction false} StringScanned(js: Text, p: nat, e: nat)
    requires p <= |js|
    ensures ScanString(js, p) == Found(e) <==> p <= e < |js| && Quoted(js, p, e) && js[e] == '\"'
    decreases |js| - p
  {
    if p < |js| && js[p] == '\\' {
      if p + 1 < |js| {
        StringScanned(js, p + 2, e);
      }
    } else if p < |js| && js[p] != '\"' {
      StringScanned(js, p + 1, e);
    }
  }

  // ---------------------------------------------------------------- soundness

  /** What the open containers say about the text before `pos`. */
  ghost predicate Describes(js: Text, frames: seq<Frame>, pos: nat)
    decreases |frames|
  {
    frames != [] && pos <= |js|
    && var f := frames[|frames| - 1];
    && -1 <= f.start < pos + 1
    && Parses(js, f.start + 1, pos, f.kids)
    && if |frames| == 1 then f.start == -1
       else
         && (f.kind.Object? || f.kind.Array?) && 0 <= f.start < pos && js[f.start] == Opening(f.kind)
         && Describes(js, frames[..|frames| - 1], f.start)
  }

  lemma ParsesMore(js: Text, a: nat, b: nat, ts: seq<Tree>, t: Tree)
    requires 0 <= From(t) && Parses(js, a, From(t), ts) && Fits(js, t) && a <= From(t) && To(t) == b
    ensures Parses(js, a, b, ts + [t])
  {
    hide Fits;
    FitsBounds(js, t);
    assert (ts + [t])[..|ts|] == ts;
  }

  lemma {:induction false} ParsesSeparator(js: Text, a: nat, b: nat, ts: seq<Tree>)
    requires Parses(js, a, b, ts) && a <= b < |js| && IsSeparator(js[b])
    ensures Parses(js, a, b + 1, ts)
  {
    hide Fits;
  }

  lemma DescribesAdd(js: Text, frames: seq<Frame>, pos: nat, t: Tree)
    requires Describes(js, frames, pos) && Fits(js, t) && From(t) == pos
    ensures Describes(js, Add(frames, t), To(t))
  {
    hide Fits, Parses;
    FitsBounds(js, t);
    var f := frames[|frames| - 1];
    ParsesMore(js, f.start + 1, To(t), f.kids, t);
    assert Add(frames, t)[..|frames| - 1] == frames[..|frames| - 1];
  }

  lemma FitsBounds(js: Text, t: Tree)
    requires Fits(js, t)
    ensures 0 <= From(t) < To(t) <= |js|
  {
  }

  lemma LeafFits(js: Text, num: nat, s: State)
    requires Describes(js, s.frames, s.pos) && s.pos < |js|
    requires js[s.pos] == '\"' || StartsPrimitive(js[s.pos])
    ensures Step(js, num, s).Next? ==> Describes(js, Step(js, num, s).state.frames, Step(js, num, s).state.pos)
  {
    hide Describes, Count, Add, Parses, ScanString, ScanPrimitive;
    DescribesSome(js, s);
    var turn := Step(js, num, s);
    if turn.Next? {
      if js[s.pos] == '\"' {
        var e := ScanString(js, s.pos + 1).at;
        StringScanned(js, s.pos + 1, e);
        DescribesAdd(js, s.frames, s.pos, Tree(String, s.pos + 1, e, []));
      } else {
        var e := ScanPrimitive(js, s.pos).at;
        PrimitiveScanned(js, s.pos, e);
        NotEmpty(js, s.pos, e);
        DescribesAdd(js, s.frames, s.pos, Tree(Primitive, s.pos, e, []));
      }
    }
  }

  lemma NotEmpty(js: Text, p: nat, e: nat)
    requires p < |js| && StartsPrimitive(js[p]) && p <= e && (e < |js| ==> EndsPrimitive(js[e]))
    ensures p < e
  {
  }

  lemma DescribesSome(js: Text, s: State)
    requires Describes(js, s.frames, s.pos)
    ensures s.frames != [] && s.pos <= |js|
  {
  }

  lemma OpenDescribes(js: Text, frames: seq<Frame>, pos: nat, kind: Kind)
    requires Describes(js, frames, pos) && pos < |js| && js[pos] == Opening(kind) && (kind.Object? || kind.Array?)
    ensures Describes(js, frames + [Frame(kind, pos, [])], pos + 1)
  {
    assert (frames + [Frame(kind, pos, [])])[..|frames|] == frames;
  }

  lemma CloseDescribes(js: Text, s: State, kind: Kind)
    requires Describes(js, s.frames, s.pos) && s.pos < |js| && js[s.pos] == Closing(kind) && s.frames != []
    ensures Close(s, kind).Next? ==> Describes(js, Close(s, kind).state.frames, s.pos + 1)
  {
    hide Add, Parses;
    var n := |s.frames| - 1;
    if Close(s, kind).Next? {
      var f := s.frames[n];
      DescribesAdd(js, s.frames[..n], f.start, Tree(kind, f.start, s.pos + 1, f.kids));
    }
  }

  lemma SkipDescribes(js: Text, frames: seq<Frame>, pos: nat)
    requires Describes(js, frames, pos) && pos < |js| && IsSeparator(js[pos])
    ensures Describes(js, frames, pos + 1)
  {
    hide Parses;
    var f := frames[|frames| - 1];
    ParsesSeparator(js, f.start + 1, pos, f.kids);
  }

  lemma StepDescribes(js: Text, num: nat, s: State)
    requires Describes(js, s.frames, s.pos) && s.pos < |js| && s.frames != []
    ensures Step(js, num, s).Next? ==> Describes(js, Step(js, num, s).state.frames, Step(js, num, s).state.pos)
  {
    hide Describes, Count, Add, ScanString, Close;
    var c := js[s.pos];
    if c == '{' {
      OpenDescribes(js, s.frames, s.pos, Object);
    } else if c == '[' {
      OpenDescribes(js, s.frames, s.pos, Array);
    } else if c == '}' {
      CloseDescribes(js, s, Object);
      CloseAdvances(s, Object);
    } else if c == ']' {
      CloseDescribes(js, s, Array);
      CloseAdvances(s, Array);
    } else if c == '\"' || StartsPrimitive(c) {
      LeafFits(js, num, s);
    } else if IsSeparator(c) {
      SkipDescribes(js, s.frames, s.pos);
    }
  }

  lemma CloseAdvances(s: State, kind: Kind)
    requires s.frames != []
    ensures Close(s, kind).Next? ==> Close(s, kind).state.pos == s.pos + 1
  {
  }

  lemma {:induction false} RunIsSound(js: Text, num: nat, s: State)
    requires s.frames != [] && Describes(js, s.frames, s.pos) && Count(s) <= num
    ensures var r := Run(js, num, s);
            r.Parsed? ==> Parses(js, 0, |js|, r.forest) && |FlattenAll(r.forest)| <= num
    decreases |js| - s.pos
  {
    hide Parses, Step, FlattenAll;
    if s.pos >= |js| {
      if |s.frames| == 1 {
        TopCount(s.frames);
      }
    } else {
      StepAdvances(js, num, s);
      StepDescribes(js, num, s);
      StepCount(js, num, s);
      if Step(js, num, s).Next? {
        RunIsSound(js, num, Step(js, num, s).state);
      }
    }
  }

  lemma TopCount(frames: seq<Frame>)
    requires |frames| == 1
    ensures Layout(frames, 0) == FlattenAll(frames[0].kids)
  {
  }

  // ---------------------------------------------------------------- counting tokens

  lemma FlattenMore(ts: seq<Tree>, t: Tree)
    ensures FlattenAll(ts + [t]) == FlattenAll(ts) + Flatten(t)
  {
    assert (ts + [t])[..|ts|] == ts;
  }

  lemma LayoutAdd(frames: seq<Frame>, t: Tree)
    requires frames != []
    ensures Layout(Add(frames, t), 0) == Layout(frames, 1) + Flatten(t)
  {
    hide Flatten;
    var n := |frames| - 1;
    FlattenMore(frames[n].kids, t);
    assert Add(frames, t)[..n] == frames[..n];
  }

  lemma LayoutSize(frames: seq<Frame>, a: int, b: int)
    ensures |Layout(frames, a)| == |Layout(frames, b)|
  {
  }

  lemma CountAdd(frames: seq<Frame>, t: Tree)
    requires frames != []
    ensures |Layout(Add(frames, t), 0)| == |Layout(frames, 0)| + |Flatten(t)|
  {
    hide Layout, Add, Flatten;
    LayoutAdd(frames, t);
    LayoutSize(frames, 0, 1);
  }

  lemma LayoutOpen(frames: seq<Frame>, kind: Kind, pos: nat)
    requires frames != []
    ensures Layout(frames + [Frame(kind, pos, [])], 0) == Layout(frames, 1) + [Token(kind, pos, -1, 0)]
  {
    assert (frames + [Frame(kind, pos, [])])[..|frames|] == frames;
  }

  lemma CountOpen(frames: seq<Frame>, kind: Kind, pos: nat)
    requires frames != []
    ensures |Layout(frames + [Frame(kind, pos, [])], 0)| == |Layout(frames, 0)| + 1
  {
    hide Layout;
    LayoutOpen(frames, kind, pos);
    LayoutSize(frames, 0, 1);
  }

  lemma CountClose(s: State, kind: Kind)
    requires s.frames != []
    ensures Close(s, kind).Next? ==> Count(Close(s, kind).state) == Count(s)
  {
    hide Add, FlattenAll;
    if Close(s, kind).Next? {
      var n := |s.frames| - 1;
      CountAdd(s.frames[..n], Tree(kind, s.frames[n].start, s.pos + 1, s.frames[n].kids));
      LayoutSize(s.frames[..n], 0, 1);
    }
  }

  lemma StepCount(js: Text, num: nat, s: State)
    requires s.pos < |js| && s.frames != [] && Count(s) <= num
    ensures Step(js, num, s).Next? ==> Count(Step(js, num, s).state) <= num
  {
    hide Layout, Add, ScanString, ScanPrimitive, Close, FlattenAll;
    CountOpen(s.frames, Object, s.pos);
    CountOpen(s.frames, Array, s.pos);
    CountClose(s, Object);
    CountClose(s, Array);
    var turn := Step(js, num, s);
    if turn.Next? {
      var quoted, plain := ScanString(js, s.pos + 1), ScanPrimitive(js, s.pos);
      CountAdd(s.frames, Tree(String, s.pos + 1, if quoted.Found? then quoted.at else 0, []));
      CountAdd(s.frames, Tree(Primitive, s.pos, if plain.Found? then plain.at else 0, []));
      LeafCount();
    }
  }

  lemma LeafCount()
    ensures forall k, a, b :: |Flatten(Tree(k, a, b, []))| == 1
  {
  }

  // ---------------------------------------------------------------- completeness

  function AddAll(frames: seq<Frame>, ts: seq<Tree>): seq<Frame>
    requires frames != []
  {
    var n := |frames| - 1;
    frames[..n] + [frames[n].(kids := frames[n].kids + ts)]
  }

  lemma AddOneMore(frames: seq<Frame>, ts: seq<Tree>)
    requires frames != [] && ts != []
    ensures AddAll(frames, ts) == Add(AddAll(frames, ts[..|ts| - 1]), ts[|ts| - 1])
  {
    var n := |frames| - 1;
    assert frames[n].kids + ts == frames[n].kids + ts[..|ts| - 1] + [ts[|ts| - 1]];
  }

  lemma AddNone(frames: seq<Frame>)
    requires frames != []
    ensures AddAll(frames, []) == frames
  {
    var n := |frames| - 1;
    assert frames[n].kids + [] == frames[n].kids;
  }

  lemma {:induction false} CountAddAll(frames: seq<Frame>, ts: seq<Tree>)
    requires frames != []
    ensures |Layout(AddAll(frames, ts), 0)| == |Layout(frames, 0)| + |FlattenAll(ts)|
    decreases |ts|
  {
    hide Layout, Add, Flatten, AddAll;
    if ts == [] {
      AddNone(frames);
    } else {
      AddOneMore(frames, ts);
      CountAddAll(frames, ts[..|ts| - 1]);
      AllNonempty(frames, ts[..|ts| - 1]);
      CountAdd(AddAll(frames, ts[..|ts| - 1]), ts[|ts| - 1]);
    }
  }

  lemma AllNonempty(frames: seq<Frame>, ts: seq<Tree>)
    requires frames != []
    ensures AddAll(frames, ts) != []
  {
  }

  lemma {:induction false} RunSeparators(js: Text, num: nat, s: State, b: nat)
    requires s.frames != [] && Separators(js, s.pos, b)
    ensures Run(js, num, s) == Run(js, num, s.(pos := b))
    decreases b - s.pos
  {
    hide Layout;
    if s.pos < b {
      assert IsSeparator(js[s.pos]);
      RunSeparators(js, num, s.(pos := s.pos + 1), b);
    }
  }

  /** The machine gets through the text of a tree and keeps exactly that tree. */
  lemma {:induction false} RunTree(js: Text, num: nat, s: State, t: Tree)
    requires s.frames != [] && Fits(js, t) && From(t) == s.pos
    requires Count(s) + |Flatten(t)| <= num
    ensures Run(js, num, s) == Run(js, num, State(To(t), Add(s.frames, t)))
    decreases t, 1
  {
    hide Layout, Quoted, Plain, FlattenAll, ScanString, ScanPrimitive;
    match t.kind {
      case Primitive =>
        PrimitiveScanned(js, t.start, t.end);
      case String =>
        StringScanned(js, t.start, t.end);
      case Object =>
        RunContainer(js, num, s, t);
      case Array =>
        RunContainer(js, num, s, t);
    }
  }

  lemma {:induction false} RunContainer(js: Text, num: nat, s: State, t: Tree)
    requires s.frames != [] && Fits(js, t) && From(t) == s.pos && (t.kind.Object? || t.kind.Array?)
    requires Count(s) + |Flatten(t)| <= num
    ensures Run(js, num, s) == Run(js, num, State(To(t), Add(s.frames, t)))
    decreases t, 0
  {
    hide Layout, Parses, FlattenAll;
    var inside := s.frames + [Frame(t.kind, t.start, [])];
    var s1 := State(t.start + 1, inside);
    CountOpen(s.frames, t.kind, t.start);
    OpenRuns(js, num, s, t.kind);
    RunTrees(js, num, s1, t.end - 1, t.kids);
    FilledFrame(s.frames, t);
    var s2 := State(t.end - 1, s.frames + [Frame(t.kind, t.start, t.kids)]);
    CloseRuns(js, num, s2, t.kind);
    assert s2.frames[..|s.frames|] == s.frames;
  }

  lemma FilledFrame(frames: seq<Frame>, t: Tree)
    ensures AddAll(frames + [Frame(t.kind, t.start, [])], t.kids) == frames + [Frame(t.kind, t.start, t.kids)]
  {
    var inside := frames + [Frame(t.kind, t.start, [])];
    assert inside[..|frames|] == frames;
    assert [] + t.kids == t.kids;
  }

  lemma OpenRuns(js: Text, num: nat, s: State, kind: Kind)
    requires s.frames != [] && s.pos < |js| && js[s.pos] == Opening(kind) && (kind.Object? || kind.Array?)
    requires Count(s) < num
    ensures Run(js, num, s) == Run(js, num, State(s.pos + 1, s.frames + [Frame(kind, s.pos, [])]))
  {
    hide Count, ScanString, ScanPrimitive;
  }

  lemma CloseRuns(js: Text, num: nat, s: State, kind: Kind)
    requires |s.frames| > 1 && s.pos < |js| && js[s.pos] == Closing(kind) && (kind.Object? || kind.Array?)
    requires s.frames[|s.frames| - 1].kind == kind
    ensures var n := |s.frames| - 1;
            Run(js, num, s) == Run(js, num, State(
              s.pos + 1, Add(s.frames[..n], Tree(kind, s.frames[n].start, s.pos + 1, s.frames[n].kids))))
  {
    hide Count, Add, ScanString, ScanPrimitive;
    StepAdvances(js, num, s);
  }

  lemma {:induction false} RunTrees(js: Text, num: nat, s: State, b: nat, ts: seq<Tree>)
    requires s.frames != [] && Parses(js, s.pos, b, ts)
    requires Count(s) + |FlattenAll(ts)| <= num
    ensures Run(js, num, s) == Run(js, num, State(b, AddAll(s.frames, ts)))
    decreases ts
  {
    hide Layout, Fits, AddAll, Add, Flatten, Run;
    if ts == [] {
      AddNone(s.frames);
      RunSeparators(js, num, s, b);
    } else {
      var n := |ts| - 1;
      var init, last := ts[..n], ts[n];
      FitsBounds(js, last);
      RunTrees(js, num, s, From(last), init);
      AllNonempty(s.frames, init);
      CountAddAll(s.frames, init);
      var s1 := State(From(last), AddAll(s.frames, init));
      RunTree(js, num, s1, last);
      AddOneMore(s.frames, ts);
      AllNonempty(s.frames, ts);
      RunSeparators(js, num, State(To(last), AddAll(s.frames, ts)), b);
    }
  }

  /** The machine accepts exactly the texts of the grammar whose tokens fit, and its result is the
      only forest of that text. */
  lemma RunIffParses(js: Text, num: nat, forest: seq<Tree>)
    ensures Run(js, num, START) == Parsed(forest)
       <==> Parses(js, 0, |js|, forest) && |FlattenAll(forest)| <= num
  {
    hide Run, Parses;
    StartDescribes(js);
    RunIsSound(js, num, START);
    if Parses(js, 0, |js|, forest) && |FlattenAll(forest)| <= num {
      RunTrees(js, num, START, |js|, forest);
      EndOfRun(js, num, forest);
    }
  }

  lemma StartDescribes(js: Text)
    ensures Describes(js, START.frames, 0) && Count(START) == 0
  {
  }

  lemma EndOfRun(js: Text, num: nat, forest: seq<Tree>)
    ensures Run(js, num, State(|js|, AddAll(START.frames, forest))) == Parsed(forest)
  {
    assert [] + forest == forest;
  }
}
