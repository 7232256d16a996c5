/** src/jsmn.c: the tokenizer, writing into the caller's token array. */
module Jsmn {
  import opened JsonGrammar

  const SUCCESS := 0

  function Code(e: Error): int {
    match e
    case NoMemory => -1
    case Invalid => -2
    case Partial => -3
  }

  /** A caller can tell success and the three errors apart. */
  lemma CodesDiffer(a: Error, b: Error)
    ensures Code(a) < SUCCESS && (Code(a) == Code(b) ==> a == b)
  {
  }

  /** A token that has not been allocated. */
  const FRESH := Token(Primitive, -1, -1, 0)

  predicate IsUnused(t: Token) {
    t.start == -1 && t.end == -1
  }

  predicate IsOpen(t: Token) {
    t.start != -1 && t.end == -1
  }

  // ---------------------------------------------------------------- tokens of a state

  /** Index of the innermost open container's token. */
  function Super(frames: seq<Frame>): int {
    if |frames| <= 1 then -1 else |Layout(frames[..|frames| - 1], 1)|
  }

  /** One more child for the token at i, if there is one. */
  function Bump(toks: seq<Token>, i: int): seq<Token> {
    if 0 <= i < |toks| then toks[i := toks[i].(size := toks[i].size + 1)] else toks
  }

  lemma SuperInside(frames: seq<Frame>)
    requires frames != []
    ensures -1 <= Super(frames) < |Layout(frames, 0)|
    ensures |frames| > 1 ==>
              && 0 <= Super(frames)
              && Layout(frames, 0)[Super(frames)]
                 == Token(frames[|frames| - 1].kind, frames[|frames| - 1].start, -1, |frames[|frames| - 1].kids|)
  {
    hide FlattenAll;
  }

  lemma LayoutBump(frames: seq<Frame>)
    requires frames != []
    ensures Layout(frames, 1) == Bump(Layout(frames, 0), Super(frames))
  {
    hide FlattenAll;
  }

  /** The array holds the tokens of a machine state, and unused ones behind them. */
  ghost predicate Laid(s: State, toknext: int, toksuper: int, toks: seq<Token>) {
    && s.frames != [] && toknext == Count(s) <= |toks|
    && toks[..toknext] == Layout(s.frames, 0)
    && (forall k | toknext <= k < |toks| :: toks[k] == FRESH)
    && toksuper == Super(s.frames)
  }

  // ---------------------------------------------------------------- each kind of step

  lemma LeafLaid(s: State, toknext: int, toksuper: int, toks: seq<Token>, pos: nat, t: Tree)
    requires Laid(s, toknext, toksuper, toks) && toknext < |toks| && t.kids == []
    ensures Laid(State(pos, Add(s.frames, t)), toknext + 1, toksuper,
                 Bump(toks[toknext := Token(t.kind, t.start, t.end, 0)], toksuper))
  {
    hide Layout, Add, FlattenAll;
    var tok := Token(t.kind, t.start, t.end, 0);
    LeafFlattens(t);
    LayoutAdd(s.frames, t);
    LayoutBump(s.frames);
    SuperInside(s.frames);
    BumpFront(toks, toknext, tok, toksuper);
    CountAdd(s.frames, t);
    AddSuper(s.frames, t);
  }

  lemma LeafFlattens(t: Tree)
    requires t.kids == []
    ensures Flatten(t) == [Token(t.kind, t.start, t.end, 0)]
  {
  }

  lemma AddSuper(frames: seq<Frame>, t: Tree)
    requires frames != []
    ensures Super(Add(frames, t)) == Super(frames) && Add(frames, t) != []
  {
    assert Add(frames, t)[..|frames| - 1] == frames[..|frames| - 1];
  }

  /** Writing the next token and counting it in its parent. */
  lemma BumpFront(toks: seq<Token>, n: int, tok: Token, i: int)
    requires 0 <= n < |toks| && -1 <= i < n
    ensures var next := Bump(toks[n := tok], i);
            && |next| == |toks|
            && next[..n + 1] == Bump(toks[..n], i) + [tok]
            && forall k | n < k < |toks| :: next[k] == toks[k]
  {
  }

  lemma OpenLaid(s: State, toknext: int, toksuper: int, toks: seq<Token>, kind: Kind)
    requires Laid(s, toknext, toksuper, toks) && toknext < |toks|
    ensures Laid(State(s.pos + 1, s.frames + [Frame(kind, s.pos, [])]), toknext + 1, toknext,
                 Bump(toks[toknext := Token(kind, s.pos, -1, 0)], toksuper))
  {
    hide Layout;
    LayoutOpen(s.frames, kind, s.pos);
    LayoutBump(s.frames);
    SuperInside(s.frames);
    BumpFront(toks, toknext, Token(kind, s.pos, -1, 0), toksuper);
    CountOpen(s.frames, kind, s.pos);
    LayoutSize(s.frames, 0, 1);
    assert (s.frames + [Frame(kind, s.pos, [])])[..|s.frames|] == s.frames;
  }

  lemma SkipLaid(s: State, toknext: int, toksuper: int, toks: seq<Token>)
    requires Laid(s, toknext, toksuper, toks)
    ensures Laid(s.(pos := s.pos + 1), toknext, toksuper, toks)
  {
  }

  lemma LayoutClose(frames: seq<Frame>, pos: nat)
    requires |frames| > 1
    ensures var n := |frames| - 1;
            var f := frames[n];
            var toks := Layout(frames, 0);
            var i := Super(frames);
            && 0 <= i < |toks|
            && Layout(Add(frames[..n], Tree(f.kind, f.start, pos + 1, f.kids)), 0)
               == toks[i := toks[i].(end := pos + 1)]
  {
    hide Add, FlattenAll;
    var n := |frames| - 1;
    var f := frames[n];
    LayoutAdd(frames[..n], Tree(f.kind, f.start, pos + 1, f.kids));
  }

  lemma CloseLaid(s: State, toknext: int, toksuper: int, toks: seq<Token>)
    requires Laid(s, toknext, toksuper, toks) && |s.frames| > 1
    ensures var n := |s.frames| - 1;
            var f := s.frames[n];
            var frames := Add(s.frames[..n], Tree(f.kind, f.start, s.pos + 1, f.kids));
            && 0 <= toksuper < toknext
            && Laid(State(s.pos + 1, frames), toknext, Super(frames),
                    toks[toksuper := toks[toksuper].(end := s.pos + 1)])
  {
    hide Layout, Add;
    var n := |s.frames| - 1;
    var f := s.frames[n];
    LayoutClose(s.frames, s.pos);
    AddSuper(s.frames[..n], Tree(f.kind, f.start, s.pos + 1, f.kids));
  }

  // ---------------------------------------------------------------- which tokens are open

  ghost predicate AllClosed(toks: seq<Token>) {
    forall k | 0 <= k < |toks| :: !IsOpen(toks[k])
  }

  lemma {:induction false} TreesAreClosed(js: Text, a: nat, b: nat, ts: seq<Tree>)
    requires Parses(js, a, b, ts)
    ensures AllClosed(FlattenAll(ts))
    decreases ts
  {
    if ts != [] {
      TreesAreClosed(js, a, From(ts[|ts| - 1]), ts[..|ts| - 1]);
      TreeIsClosed(js, ts[|ts| - 1]);
    }
  }

  lemma {:induction false} TreeIsClosed(js: Text, t: Tree)
    requires Fits(js, t)
    ensures AllClosed(Flatten(t))
    decreases t
  {
    if t.kind.Object? || t.kind.Array? {
      TreesAreClosed(js, t.start + 1, t.end - 1, t.kids);
    }
  }

  /** Behind the innermost open container, every token is closed. */
  lemma ClosedBehindSuper(js: Text, frames: seq<Frame>, pos: nat)
    requires Describes(js, frames, pos)
    ensures forall k | Super(frames) < k < |Layout(frames, 0)| :: !IsOpen(Layout(frames, 0)[k])
    ensures |frames| > 1 ==>
              && 0 <= Super(frames) < |Layout(frames, 0)| && IsOpen(Layout(frames, 0)[Super(frames)])
              && Layout(frames, 0)[Super(frames)].kind == frames[|frames| - 1].kind
  {
    hide FlattenAll, Parses;
    var f := frames[|frames| - 1];
    TreesAreClosed(js, f.start + 1, pos, f.kids);
    SuperInside(frames);
    BehindSuper(frames);
    var kids := FlattenAll(f.kids);
    forall k | Super(frames) < k < |Layout(frames, 0)| ensures !IsOpen(Layout(frames, 0)[k]) {
      assert Layout(frames, 0)[k] == kids[k - Super(frames) - 1];
    }
  }

  lemma BehindSuper(frames: seq<Frame>)
    requires frames != []
    ensures -1 <= Super(frames) < |Layout(frames, 0)|
    ensures Layout(frames, 0)[Super(frames) + 1..] == FlattenAll(frames[|frames| - 1].kids)
  {
    hide FlattenAll;
  }

  lemma OpenInArray(js: Text, s: State, toknext: int, toksuper: int, toks: seq<Token>)
    requires Laid(s, toknext, toksuper, toks) && Describes(js, s.frames, s.pos)
    ensures -1 <= toksuper < toknext <= |toks|
    ensures forall k | toksuper < k < toknext :: !IsOpen(toks[k])
    ensures toksuper == -1 <==> |s.frames| == 1
    ensures toksuper >= 0 ==> IsOpen(toks[toksuper]) && toks[toksuper].kind == s.frames[|s.frames| - 1].kind
  {
    hide Layout, Describes;
    ClosedBehindSuper(js, s.frames, s.pos);
    SuperInside(s.frames);
    forall k | toksuper < k < toknext ensures !IsOpen(toks[k]) {
      assert toks[..toknext][k] == toks[k];
    }
  }

  lemma LaidBounds(s: State, toknext: int, toksuper: int, toks: seq<Token>)
    requires Laid(s, toknext, toksuper, toks)
    ensures 0 <= toknext == Count(s) <= |toks| && -1 <= toksuper < toknext
    ensures forall k | toknext <= k < |toks| :: toks[k] == FRESH
  {
    hide Layout;
    SuperInside(s.frames);
  }

  lemma StartsLaid(toks: seq<Token>)
    requires forall k | 0 <= k < |toks| :: toks[k] == FRESH
    ensures Laid(START, 0, -1, toks)
  {
  }

  lemma LaidAtTop(s: State, toknext: int, toksuper: int, toks: seq<Token>)
    requires Laid(s, toknext, toksuper, toks) && |s.frames| == 1
    ensures toknext == |FlattenAll(s.frames[0].kids)| <= |toks| && toks[..toknext] == FlattenAll(s.frames[0].kids)
  {
    TopCount(s.frames);
  }

  /** A turn of the loop ended as the machine says; `pos` still has to move one character on. */
  ghost predicate Done(turn: Turn, pos: int, r: int, toknext: int, toksuper: int, toks: seq<Token>) {
    if turn.Fails? then r == Code(turn.error)
    else r == SUCCESS && turn.state.pos == pos + 1 && Laid(turn.state, toknext, toksuper, toks)
  }

  /** What the two scanning methods do to the array. */
  ghost predicate LeafDone(
    toknext0: int, kind: Kind, from: nat, scan: Scan, toks0: seq<Token>, r: int, toknext1: int, toks1: seq<Token>)
  {
    if scan.Wrong? then r == Code(scan.error)
    else if toknext0 >= |toks0| then r == Code(NoMemory)
    else
      && r == SUCCESS && 0 <= toknext0 && toknext1 == toknext0 + 1
      && toks1 == toks0[toknext0 := Token(kind, from, scan.at, 0)]
  }

  lemma LeafStep(
    js: Text, s: State, toknext0: int, toksuper: int, toks0: seq<Token>, kind: Kind, from: nat, scan: Scan,
    r: int, toknext1: int, toks1: seq<Token>)
    requires Laid(s, toknext0, toksuper, toks0) && LeafDone(toknext0, kind, from, scan, toks0, r, toknext1, toks1)
    requires s.frames != []
    ensures r == SUCCESS ==> scan.Found? && -1 <= toksuper < |toks1|
    ensures Done(Leaf(js, |toks0|, s, kind, from, scan),
                 if scan.Wrong? then 0 else if kind.String? then scan.at else scan.at - 1,
                 r, toknext1, toksuper, Bump(toks1, toksuper))
  {
    hide Laid, Layout, Add;
    LaidBounds(s, toknext0, toksuper, toks0);
    if scan.Found? && toknext0 < |toks0| {
      LeafLaid(s, toknext0, toksuper, toks0,
               if kind.String? then scan.at + 1 else scan.at, Tree(kind, from, scan.at, []));
    }
  }

  lemma FreshStays(toks: seq<Token>, n: int, i: int)
    requires 0 <= n < |toks| && -1 <= i < n
    ensures Bump(toks, i)[n] == toks[n]
  {
  }

  lemma BumpThenWrite(toks: seq<Token>, n: int, i: int, tok: Token)
    requires 0 <= n < |toks| && -1 <= i < n
    ensures Bump(toks, i)[n := tok] == Bump(toks[n := tok], i)
  {
  }

  lemma RunStep(js: Text, num: nat, s: State)
    requires s.frames != [] && s.pos < |js|
    ensures Step(js, num, s).Fails? ==> Run(js, num, s) == Failed(Step(js, num, s).error)
    ensures Step(js, num, s).Next? ==>
              Step(js, num, s).state.frames != [] && Run(js, num, s) == Run(js, num, Step(js, num, s).state)
  {
    hide Step;
    StepAdvances(js, num, s);
  }

  lemma RunEnds(js: Text, num: nat, s: State)
    requires s.frames != [] && s.pos >= |js|
    ensures Run(js, num, s) == if |s.frames| == 1 then Parsed(s.frames[0].kids) else Failed(Partial)
  {
  }

  /** After a close, the enclosing container opens before the one that was closed. */
  lemma SuperBelow(s: State, kind: Kind)
    requires s.frames != [] && Close(s, kind).Next?
    ensures Super(Close(s, kind).state.frames) < Super(s.frames)
  {
    hide Add, FlattenAll;
    var n := |s.frames| - 1;
    AddSuper(s.frames[..n], Tree(kind, s.frames[n].start, s.pos + 1, s.frames[n].kids));
    SuperInside(s.frames[..n]);
    LayoutSize(s.frames[..n], 0, 1);
  }

  // ---------------------------------------------------------------- the object

  class JsmnParser {
    var pos: nat
    var toknext: int
    var toksuper: int

    /** jsmn_init */
    constructor ()
      ensures pos == 0 && toknext == 0 && toksuper == -1
    {
      pos, toknext, toksuper := 0, 0, -1;
    }

    /** The first unused token from toknext on, or -1. */
    method AllocToken(tokens: array<Token>) returns (i: int)
      requires 0 <= toknext <= tokens.Length
      modifies this`toknext
      ensures i == -1 ==> toknext == old(toknext)
      ensures i == -1 ==> forall k | old(toknext) <= k < tokens.Length :: !IsUnused(tokens[k])
      ensures i != -1 ==>
                && old(toknext) <= i < tokens.Length && IsUnused(tokens[i]) && toknext == i + 1
                && forall k | old(toknext) <= k < i :: !IsUnused(tokens[k])
      ensures old(toknext) < tokens.Length && IsUnused(tokens[old(toknext)]) ==> i == old(toknext)
    {
      i := toknext;
      while i < tokens.Length
        invariant toknext == old(toknext) <= i <= tokens.Length
        invariant forall k | toknext <= k < i :: !IsUnused(tokens[k])
      {
        if tokens[i].start == -1 && tokens[i].end == -1 {
          toknext := i + 1;
          return;
        }
        i := i + 1;
      }
      i := -1;
    }

    method ParsePrimitive(js: Text, tokens: array<Token>) returns (r: int)
      requires 0 <= toknext <= tokens.Length && pos < |js| && !EndsPrimitive(js[pos])
      requires forall k | toknext <= k < tokens.Length :: tokens[k] == FRESH
      modifies this`pos, this`toknext, tokens
      ensures LeafDone(old(toknext), Primitive, old(pos), ScanPrimitive(js, old(pos)),
                       old(tokens[..]), r, toknext, tokens[..])
      ensures r == SUCCESS ==> pos + 1 == ScanPrimitive(js, old(pos)).at
      ensures r != SUCCESS ==> pos == old(pos) && toknext == old(toknext) && tokens[..] == old(tokens[..])
    {
      var start := pos;
      while pos < |js| && !EndsPrimitive(js[pos])
        invariant start <= pos <= |js| && ScanPrimitive(js, start) == ScanPrimitive(js, pos)
        modifies this`pos
      {
        if js[pos] as int < 32 || js[pos] as int >= 127 {
          pos := start;
          return Code(Invalid);
        }
        pos := pos + 1;
      }
      var i := AllocToken(tokens);
      if i == -1 {
        pos := start;
        return Code(NoMemory);
      }
      tokens[i] := Token(Primitive, start, pos, 0);
      pos := pos - 1;
      r := SUCCESS;
    }

    method ParseString(js: Text, tokens: array<Token>) returns (r: int)
      requires 0 <= toknext <= tokens.Length && pos < |js|
      requires forall k | toknext <= k < tokens.Length :: tokens[k] == FRESH
      modifies this`pos, this`toknext, tokens
      ensures LeafDone(old(toknext), String, old(pos) + 1, ScanString(js, old(pos) + 1),
                       old(tokens[..]), r, toknext, tokens[..])
      ensures r == SUCCESS ==> pos == ScanString(js, old(pos) + 1).at
      ensures r != SUCCESS ==> pos == old(pos) && toknext == old(toknext) && tokens[..] == old(tokens[..])
    {
      var start := pos;
      pos := pos + 1;
      while pos < |js|
        invariant start < pos <= |js| && ScanString(js, start + 1) == ScanString(js, pos)
        invariant toknext == old(toknext) && tokens[..] == old(tokens[..])
      {
        var c := js[pos];
        if c == '\"' {
          assert forall k | toknext <= k < tokens.Length :: tokens[k] == old(tokens[..])[k];
          var i := AllocToken(tokens);
          if i == -1 {
            pos := start;
            return Code(NoMemory);
          }
          tokens[i] := Token(String, start + 1, pos, 0);
          return SUCCESS;
        }
        if c == '\\' {
          pos := pos + 1;
          if !IsEscaped(At(js, pos)) {
            pos := start;
            return Code(Invalid);
          }
        }
        pos := pos + 1;
      }
      pos := start;
      r := Code(Partial);
    }

    /** Counts one more child in the enclosing container. */
    method CountChild(tokens: array<Token>)
      requires -1 <= toksuper < tokens.Length
      modifies tokens
      ensures tokens[..] == Bump(old(tokens[..]), toksuper)
    {
      if toksuper != -1 {
        tokens[toksuper] := tokens[toksuper].(size := tokens[toksuper].size + 1);
      }
    }

    /** A closing bracket: close the innermost open token, and find the one around it. */
    method CloseContainer(js: Text, tokens: array<Token>, kind: Kind, ghost s: State) returns (r: int)
      requires Laid(s, toknext, toksuper, tokens[..]) && Describes(js, s.frames, s.pos) && s.pos == pos < |js|
      requires s.frames != [] && js[pos] == Closing(kind)
      modifies this`toksuper, tokens
      ensures Done(Close(s, kind), pos, r, toknext, toksuper, tokens[..])
    {
      hide Describes, Laid, Layout, Add;
      OpenInArray(js, s, toknext, toksuper, tokens[..]);
      var i := toknext - 1;
      while i >= 0 && !IsOpen(tokens[i])
        invariant toksuper <= i < toknext
      {
        i := i - 1;
      }
      if i == -1 {
        return Code(Invalid);
      }
      if tokens[i].kind != kind {
        return Code(Invalid);
      }
      CloseLaid(s, toknext, toksuper, tokens[..]);
      CloseDescribes(js, s, kind);
      ghost var s' := Close(s, kind).state;
      toksuper := -1;
      tokens[i] := tokens[i].(end := pos + 1);
      OpenInArray(js, s', toknext, Super(s'.frames), tokens[..]);
      SuperBelow(s, kind);
      while i >= 0
        invariant Super(s'.frames) <= i < toknext && toksuper == -1
      {
        if IsOpen(tokens[i]) {
          toksuper := i;
          break;
        }
        i := i - 1;
      }
      r := SUCCESS;
    }

    /** jsmn_parse, from a fresh parser. On success the tokens are those of the only forest the
        grammar gives the text. It succeeds whenever there is one and its tokens fit. */
    method Parse(js: Text, tokens: array<Token>) returns (r: int, ghost forest: seq<Tree>)
      requires pos == 0 && toknext == 0 && toksuper == -1
      modifies this, tokens
      ensures match Run(js, tokens.Length, START)
              case Parsed(f) => r == SUCCESS && f == forest
              case Failed(e) => r == Code(e)
      ensures r == SUCCESS ==>
                && Parses(js, 0, |js|, forest)
                && toknext == |FlattenAll(forest)| <= tokens.Length && tokens[..toknext] == FlattenAll(forest)
      ensures r != SUCCESS ==>
        forall f :: !(Parses(js, 0, |js|, f) && |FlattenAll(f)| <= tokens.Length)
    {
      hide Parses, Layout, Describes, Run, Step;
      var k := toknext;
      while k < tokens.Length
        invariant 0 <= k <= tokens.Length
        invariant forall j | 0 <= j < k :: tokens[j] == FRESH
        modifies tokens
      {
        tokens[k] := FRESH;
        k := k + 1;
      }
      r, forest := MainLoop(js, tokens);
      if r == SUCCESS {
        RunIffParses(js, tokens.Length, forest);
      } else {
        forall f ensures !(Parses(js, 0, |js|, f) && |FlattenAll(f)| <= tokens.Length) {
          RunIffParses(js, tokens.Length, f);
        }
      }
    }

    method MainLoop(js: Text, tokens: array<Token>) returns (r: int, ghost forest: seq<Tree>)
      requires pos == 0 && toknext == 0 && toksuper == -1
      requires forall j | 0 <= j < tokens.Length :: tokens[j] == FRESH
      modifies this, tokens
      ensures match Run(js, tokens.Length, START)
              case Parsed(f) => r == SUCCESS && f == forest
                                && toknext == |FlattenAll(f)| <= tokens.Length && tokens[..toknext] == FlattenAll(f)
              case Failed(e) => r == Code(e)
    {
      hide Laid, Layout, Describes, Run, Step, FlattenAll;
      forest := [];
      ghost var s := START;
      StartsLaid(tokens[..]);
      StartDescribes(js);
      while pos < |js|
        invariant s.pos == pos <= |js| && s.frames != []
        invariant Laid(s, toknext, toksuper, tokens[..]) && Describes(js, s.frames, s.pos)
        invariant Run(js, tokens.Length, START) == Run(js, tokens.Length, s)
        decreases |js| - pos
      {
        RunStep(js, tokens.Length, s);
        StepDescribes(js, tokens.Length, s);
        StepAdvances(js, tokens.Length, s);
        r := Dispatch(js, tokens, s);
        if r != SUCCESS {
          return;
        }
        pos := pos + 1;
        s := Step(js, tokens.Length, s).state;
        DescribesSome(js, s);
      }
      RunEnds(js, tokens.Length, s);
      OpenInArray(js, s, toknext, toksuper, tokens[..]);
      var i := toknext - 1;
      while i >= 0
        invariant toksuper <= i < toknext
      {
        if IsOpen(tokens[i]) {
          return Code(Partial), [];
        }
        i := i - 1;
      }
      forest := s.frames[0].kids;
      LaidAtTop(s, toknext, toksuper, tokens[..]);
      r := SUCCESS;
    }

    /** The switch of the main loop; the loop itself then moves one character on. */
    method Dispatch(js: Text, tokens: array<Token>, ghost s: State) returns (r: int)
      requires Laid(s, toknext, toksuper, tokens[..]) && Describes(js, s.frames, s.pos) && s.pos == pos < |js|
      requires s.frames != []
      modifies this, tokens
      ensures Done(Step(js, tokens.Length, s), pos, r, toknext, toksuper, tokens[..])
    {
      hide Laid, Layout, Describes, Close, Open, Leaf, ScanString, ScanPrimitive, Add, LeafDone;
      LaidBounds(s, toknext, toksuper, tokens[..]);
      ghost var toknext0, toks0 := toknext, tokens[..];
      var c := js[pos];
      if c == '{' || c == '[' {
        r := OpenContainer(tokens, if c == '{' then Object else Array, s);
      } else if c == '}' || c == ']' {
        r := CloseContainer(js, tokens, if c == '}' then Object else Array, s);
      } else if c == '\"' {
        r := ParseString(js, tokens);
        LeafStep(js, s, toknext0, toksuper, toks0, String, s.pos + 1, ScanString(js, s.pos + 1), r,
                 toknext, tokens[..]);
        if r != SUCCESS {
          return;
        }
        CountChild(tokens);
      } else if IsSeparator(c) {
        SkipLaid(s, toknext, toksuper, tokens[..]);
        r := SUCCESS;
      } else {
        r := ParsePrimitive(js, tokens);
        LeafStep(js, s, toknext0, toksuper, toks0, Primitive, s.pos, ScanPrimitive(js, s.pos), r, toknext, tokens[..]);
        if r != SUCCESS {
          return;
        }
        CountChild(tokens);
      }
    }

    /** An opening bracket. */
    method OpenContainer(tokens: array<Token>, kind: Kind, ghost s: State) returns (r: int)
      requires Laid(s, toknext, toksuper, tokens[..]) && s.pos == pos
      modifies this`toknext, this`toksuper, tokens
      ensures Done(Open(tokens.Length, s, kind), pos, r, toknext, toksuper, tokens[..])
    {
      hide Laid, Layout;
      LaidBounds(s, toknext, toksuper, tokens[..]);
      ghost var toknext0, toks0 := toknext, tokens[..];
      var i := AllocToken(tokens);
      if i == -1 {
        return Code(NoMemory);
      }
      OpenLaid(s, toknext0, toksuper, toks0, kind);
      CountChild(tokens);
      FreshStays(toks0, i, toksuper);
      tokens[i] := tokens[i].(kind := kind, start := pos);
      BumpThenWrite(toks0, i, toksuper, Token(kind, pos, -1, 0));
      toksuper := toknext - 1;
      r := SUCCESS;
    }
  }
}
