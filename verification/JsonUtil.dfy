/** src/json_util.cpp: finding members of an object in the token array, terminating keys and
    values in the text buffer along the way. */
module JsonUtil {
  import opened Collections
  import opened JsonGrammar
  import opened Numbers

  predicate IsLeaf(t: Token) {
    t.kind.Primitive? || t.kind.String?
  }

  // ---------------------------------------------------------------- leaves do not touch

  /** Between two leaves there is at least one character that belongs to neither. */
  ghost predicate Apart(toks: seq<Token>) {
    forall i, j | 0 <= i < j < |toks| && IsLeaf(toks[i]) && IsLeaf(toks[j]) :: toks[i].end < toks[j].start
  }

  ghost predicate Within(js: Text, a: int, b: int, toks: seq<Token>) {
    forall i | 0 <= i < |toks| && IsLeaf(toks[i]) :: LeafWithin(js, a, b, toks[i])
  }

  predicate LeafWithin(js: Text, a: int, b: int, t: Token) {
    a <= t.start <= t.end && (t.end < b || (t.end == b && 0 <= b && (b < |js| ==> EndsPrimitive(js[b]))))
  }

  lemma WithinWider(js: Text, a: int, b: int, c: int, d: int, toks: seq<Token>)
    requires Within(js, a, b, toks) && c <= a && (b < d || b == d)
    ensures Within(js, c, d, toks)
  {
    forall i | 0 <= i < |toks| && IsLeaf(toks[i]) ensures LeafWithin(js, c, d, toks[i]) {
      assert LeafWithin(js, a, b, toks[i]);
    }
  }

  lemma ApartJoin(js: Text, a: int, m: int, b: int, x: seq<Token>, y: seq<Token>)
    requires Apart(x) && Apart(y) && Within(js, a, m, x) && Within(js, m, b, y)
    requires 0 <= a <= m < b && m < |js| && !EndsPrimitive(js[m])
    ensures Apart(x + y) && Within(js, a, b, x + y)
  {
    var s := x + y;
    forall i | 0 <= i < |s| && IsLeaf(s[i])
      ensures LeafWithin(js, a, b, s[i])
      ensures i < |x| ==> s[i].end < m
      ensures i >= |x| ==> m <= s[i].start
    {
      if i < |x| {
        assert LeafWithin(js, a, m, x[i]);
      } else {
        assert LeafWithin(js, m, b, y[i - |x|]);
      }
    }
    forall i, j | 0 <= i < j < |s| && IsLeaf(s[i]) && IsLeaf(s[j]) ensures s[i].end < s[j].start {
      if j < |x| {
        assert x[i].end < x[j].start;
      } else if i >= |x| {
        assert y[i - |x|].end < y[j - |x|].start;
      }
    }
  }

  /** A tree starts with a character that ends no primitive. */
  lemma StartsFresh(js: Text, t: Tree)
    requires Fits(js, t)
    ensures 0 <= From(t) < To(t) <= |js| && !EndsPrimitive(js[From(t)])
  {
  }

  lemma {:induction false} TreesApart(js: Text, a: nat, b: nat, ts: seq<Tree>)
    requires Parses(js, a, b, ts)
    ensures Apart(FlattenAll(ts)) && Within(js, a, b, FlattenAll(ts))
    decreases ts
  {
    hide Fits, Apart, Within, Flatten;
    if ts == [] {
      NothingApart(js, a, b);
    } else {
      var last := ts[|ts| - 1];
      StartsFresh(js, last);
      TreesApart(js, a, From(last), ts[..|ts| - 1]);
      TreeApart(js, last);
      WithinWider(js, From(last), To(last), From(last), b, Flatten(last));
      ApartJoin(js, a, From(last), b, FlattenAll(ts[..|ts| - 1]), Flatten(last));
    }
  }

  lemma NothingApart(js: Text, a: nat, b: nat)
    ensures Apart([]) && Within(js, a, b, [])
  {
  }

  lemma {:induction false} TreeApart(js: Text, t: Tree)
    requires Fits(js, t)
    ensures Apart(Flatten(t)) && Within(js, From(t), To(t), Flatten(t))
    decreases t
  {
    if t.kind.Object? || t.kind.Array? {
      TreesApart(js, t.start + 1, t.end - 1, t.kids);
      WithinWider(js, t.start + 1, t.end - 1, t.start, t.end, FlattenAll(t.kids));
    }
  }

  /** So writing a NUL at the end of one leaf is outside every leaf. */
  lemma EndIsOutside(js: Text, toks: seq<Token>, b: nat, i: nat, j: nat)
    requires Apart(toks) && Within(js, 0, b, toks) && i < |toks| && j < |toks| && IsLeaf(toks[i]) && IsLeaf(toks[j])
    ensures 0 <= toks[i].start <= toks[i].end <= b
    ensures !(toks[j].start <= toks[i].end < toks[j].end)
  {
    assert LeafWithin(js, 0, b, toks[i]) && LeafWithin(js, 0, b, toks[j]);
  }

  // ---------------------------------------------------------------- walking the tokens

  /** The tokens from i on are those of a tree. */
  ghost predicate Holds(toks: seq<Token>, i: int, t: Tree) {
    0 <= i && i + |Flatten(t)| <= |toks| && toks[i..i + |Flatten(t)|] == Flatten(t)
  }

  lemma PrefixFlattens(ts: seq<Tree>, k: nat)
    requires k < |ts|
    ensures FlattenAll(ts[..k + 1]) == FlattenAll(ts[..k]) + Flatten(ts[k])
  {
    assert ts[..k + 1][..k] == ts[..k];
  }

  lemma {:induction false} PrefixIsPrefix(ts: seq<Tree>, k: nat)
    requires k <= |ts|
    ensures FlattenAll(ts[..k]) <= FlattenAll(ts)
    decreases |ts|
  {
    if k == |ts| {
      assert ts[..k] == ts;
    } else {
      PrefixIsPrefix(ts[..|ts| - 1], k);
      assert ts[..|ts| - 1][..k] == ts[..k];
    }
  }

  /** Where the k-th child's tokens are. */
  function KidAt(i: int, t: Tree, k: nat): int
    requires k <= |t.kids|
  {
    i + 1 + |FlattenAll(t.kids[..k])|
  }

  lemma KidHolds(toks: seq<Token>, i: int, t: Tree, k: nat)
    requires Holds(toks, i, t) && k < |t.kids|
    ensures Holds(toks, KidAt(i, t, k), t.kids[k])
    ensures KidAt(i, t, k + 1) == KidAt(i, t, k) + |Flatten(t.kids[k])| <= i + |Flatten(t)|
  {
    hide FlattenAll;
    PrefixFlattens(t.kids, k);
    PrefixIsPrefix(t.kids, k + 1);
    var a, n := KidAt(i, t, k), |Flatten(t.kids[k])|;
    var all := FlattenAll(t.kids);
    assert all[a - i - 1..a - i - 1 + n] == Flatten(t.kids[k]) by {
      var front := FlattenAll(t.kids[..k + 1]);
      assert front == all[..|front|];
      assert front[a - i - 1..] == Flatten(t.kids[k]);
    }
    assert toks[i..i + |Flatten(t)|][1..] == all && toks[i..i + |Flatten(t)|][1..] == toks[i + 1..i + |Flatten(t)|];
    SliceOfSlice(toks, i + 1, i + |Flatten(t)|, a - i - 1, a - i - 1 + n);
  }

  lemma HoldsHead(toks: seq<Token>, i: int, t: Tree)
    requires Holds(toks, i, t)
    ensures 0 <= i < |toks| && toks[i] == Token(t.kind, t.start, t.end, |t.kids|)
    ensures KidAt(i, t, 0) == i + 1 && KidAt(i, t, |t.kids|) == i + |Flatten(t)|
  {
    assert toks[i] == toks[i..i + |Flatten(t)|][0];
    assert t.kids[..|t.kids|] == t.kids;
  }

  /** skip_item lands just past the subtree. */
  method SkipItem(tokens: array<Token>, ghost n: nat, i: int, ghost t: Tree) returns (j: int)
    requires n <= tokens.Length && Holds(tokens[..n], i, t)
    ensures j == i + |Flatten(t)|
    decreases t
  {
    hide Holds, Flatten, FlattenAll, KidAt;
    HoldsHead(tokens[..n], i, t);
    var size := tokens[i].size;
    j := i + 1;
    if size == 0 {
      return;
    }
    for k := 0 to size
      invariant j == KidAt(i, t, k)
    {
      KidHolds(tokens[..n], i, t, k);
      j := SkipItem(tokens, n, j, t.kids[k]);
    }
  }

  // ---------------------------------------------------------------- the text of a value

  function TextOf(js: Text, t: Tree): string {
    if 0 <= t.start <= t.end <= |js| then js[t.start..t.end] else ""
  }

  /** The C string at a position. */
  function CString(buf: seq<char>, p: nat): string
    decreases |buf| - p
  {
    if p >= |buf| || buf[p] == '\0' then "" else [buf[p]] + CString(buf, p + 1)
  }

  lemma {:induction false} TerminatedString(buf: seq<char>, p: nat, e: nat)
    requires p <= e < |buf| && buf[e] == '\0' && '\0' !in buf[p..e]
    ensures CString(buf, p) == buf[p..e]
    decreases e - p
  {
    if p < e {
      assert buf[p] in buf[p..e];
      assert buf[p..e] == [buf[p]] + buf[p + 1..e];
      TerminatedString(buf, p + 1, e);
    }
  }

  /** No leaf among the tokens has lost a character of its text. */
  ghost predicate Intact(js: Text, toks: seq<Token>, buf: seq<char>) {
    |buf| == |js| + 1 && forall i | 0 <= i < |toks| && IsLeaf(toks[i]) :: LeafIntact(js, toks[i], buf)
  }

  predicate LeafIntact(js: Text, t: Token, buf: seq<char>) {
    0 <= t.start <= t.end <= |js| < |buf| && buf[t.start..t.end] == js[t.start..t.end]
  }

  lemma TerminateKeeps(js: Text, toks: seq<Token>, buf: seq<char>, i: nat)
    requires Apart(toks) && Within(js, 0, |js|, toks) && Intact(js, toks, buf) && i < |toks| && IsLeaf(toks[i])
    ensures 0 <= toks[i].start <= toks[i].end < |buf|
    ensures Intact(js, toks, buf[toks[i].end := '\0'])
    ensures CString(buf[toks[i].end := '\0'], toks[i].start) == js[toks[i].start..toks[i].end]
  {
    hide CString, Apart, Within;
    EndIsOutside(js, toks, |js|, i, i);
    var e := toks[i].end;
    var next := buf[e := '\0'];
    forall j | 0 <= j < |toks| && IsLeaf(toks[j]) ensures LeafIntact(js, toks[j], next) {
      EndIsOutside(js, toks, |js|, i, j);
      assert LeafIntact(js, toks[j], buf);
      assert next[toks[j].start..toks[j].end] == buf[toks[j].start..toks[j].end];
    }
    assert LeafIntact(js, toks[i], next);
    TerminatedString(next, toks[i].start, e);
  }

  // ---------------------------------------------------------------- members of an object

  /** Child 2k is the key asked for, and the value behind it has the kind asked for. */
  predicate IsMember(js: Text, t: Tree, k: int, key: string, kind: Kind) {
    && 0 <= k && 2 * k + 1 < |t.kids|
    && t.kids[2 * k].kind.String? && TextOf(js, t.kids[2 * k]) == key && t.kids[2 * k + 1].kind == kind
  }

  /** The buffer after looking at n pairs: every string among the keys is terminated. */
  function Marked(buf: seq<char>, kids: seq<Tree>, n: nat): seq<char>
    requires 2 * n <= |kids|
  {
    if n == 0 then buf
    else
      var before, key := Marked(buf, kids, n - 1), kids[2 * (n - 1)];
      if key.kind.String? && 0 <= key.end < |before| then before[key.end := '\0'] else before
  }

  /** Everything find_key needs to know about its arguments: the tokens are those of a parsed text,
      from `root` on those of the value t, and no text in the buffer has been damaged. */
  ghost predicate Ready(js: Text, toks: seq<Token>, root: int, t: Tree, buf: seq<char>) {
    && Holds(toks, root, t) && Fits(js, t)
    && Apart(toks) && Within(js, 0, |js|, toks) && Intact(js, toks, buf)
  }

  /** Parsing makes the whole array ready. */
  lemma ParsedIsReady(js: Text, forest: seq<Tree>, k: nat)
    requires Parses(js, 0, |js|, forest) && k < |forest|
    ensures Ready(js, FlattenAll(forest), |FlattenAll(forest[..k])|, forest[k], js + ['\0'])
  {
    hide Flatten, FlattenAll, Apart, Within, Fits, IsLeaf;
    TreesApart(js, 0, |js|, forest);
    PrefixFlattens(forest, k);
    PrefixIsPrefix(forest, k + 1);
    ForestFits(js, 0, |js|, forest, k);
    var toks, front := FlattenAll(forest), FlattenAll(forest[..k + 1]);
    assert front == toks[..|front|];
    var buf := js + ['\0'];
    forall i | 0 <= i < |toks| && IsLeaf(toks[i]) ensures LeafIntact(js, toks[i], buf) {
      EndIsOutside(js, toks, |js|, i, i);
      assert buf[toks[i].start..toks[i].end] == js[toks[i].start..toks[i].end];
    }
  }

  lemma {:induction false} ForestFits(js: Text, a: nat, b: nat, ts: seq<Tree>, k: nat)
    requires Parses(js, a, b, ts) && k < |ts|
    ensures Fits(js, ts[k])
    decreases |ts|
  {
    hide Fits;
    if k < |ts| - 1 {
      ForestFits(js, a, From(ts[|ts| - 1]), ts[..|ts| - 1], k);
    }
  }

  lemma KidFits(js: Text, t: Tree, k: nat)
    requires Fits(js, t) && k < |t.kids|
    ensures Fits(js, t.kids[k])
    ensures t.kids[k].kind.String? || t.kids[k].kind.Primitive? ==> |Flatten(t.kids[k])| == 1
  {
    ForestFits(js, t.start + 1, t.end - 1, t.kids, k);
  }

  lemma KidReady(js: Text, toks: seq<Token>, root: int, t: Tree, buf: seq<char>, k: nat)
    requires Ready(js, toks, root, t, buf) && k < |t.kids|
    ensures Ready(js, toks, KidAt(root, t, k), t.kids[k], buf)
    ensures KidAt(root, t, k + 1) == KidAt(root, t, k) + |Flatten(t.kids[k])|
    ensures t.kids[k].kind.String? || t.kids[k].kind.Primitive? ==> |Flatten(t.kids[k])| == 1
  {
    hide Apart, Within, Intact, Flatten, FlattenAll, Fits, KidAt, Holds;
    KidHolds(toks, root, t, k);
    KidFits(js, t, k);
  }

  /** Terminating a leaf keeps everything ready, and makes its text a C string. */
  lemma LeafReady(js: Text, toks: seq<Token>, root: int, t: Tree, buf: seq<char>, i: int, leaf: Tree)
    requires Ready(js, toks, root, t, buf) && Ready(js, toks, i, leaf, buf)
    requires leaf.kind.String? || leaf.kind.Primitive?
    ensures 0 <= i < |toks| && toks[i].start == leaf.start && toks[i].end == leaf.end
    ensures 0 <= leaf.start <= leaf.end < |buf|
    ensures Ready(js, toks, root, t, buf[leaf.end := '\0']) && Ready(js, toks, i, leaf, buf[leaf.end := '\0'])
    ensures CString(buf[leaf.end := '\0'], leaf.start) == TextOf(js, leaf)
  {
    hide Apart, Within, Intact, CString, Fits, Holds, KidAt;
    HoldsHead(toks, i, leaf);
    TerminateKeeps(js, toks, buf, i);
    IntactLength(js, toks, buf);
  }

  lemma IntactLength(js: Text, toks: seq<Token>, buf: seq<char>)
    requires Intact(js, toks, buf)
    ensures |buf| == |js| + 1
  {
  }

  lemma ReadyHead(js: Text, toks: seq<Token>, root: int, t: Tree, buf: seq<char>)
    requires Ready(js, toks, root, t, buf)
    ensures 0 <= root < |toks| && toks[root] == Token(t.kind, t.start, t.end, |t.kids|) && KidAt(root, t, 0) == root + 1
    ensures Holds(toks, root, t)
  {
    hide Apart, Within, Intact, Fits, KidAt, Holds;
    HoldsHead(toks, root, t);
  }

  /** find_key: the value of the first direct member with this key and this kind, or -1. It
      terminates the keys it has looked at, and damages no text. */
  method FindKey(tokens: array<Token>, ghost n: nat, root: int, buf: array<char>, key: string, kind: Kind,
    ghost js: Text, ghost t: Tree)
    returns (found: int, ghost k: nat)
    requires n <= tokens.Length && Ready(js, tokens[..n], root, t, buf[..])
    modifies buf
    ensures Ready(js, tokens[..n], root, t, buf[..])
    ensures found == -1 ==>
              && (!t.kind.Object? || forall j | 0 <= j < |t.kids| / 2 :: !IsMember(js, t, j, key, kind))
              && buf[..] == if t.kind.Object? then Marked(old(buf[..]), t.kids, |t.kids| / 2) else old(buf[..])
    ensures found != -1 ==>
              && t.kind.Object? && IsMember(js, t, k, key, kind)
              && (forall j | 0 <= j < k :: !IsMember(js, t, j, key, kind))
              && found == KidAt(root, t, 2 * k + 1) && Ready(js, tokens[..n], found, t.kids[2 * k + 1], buf[..])
              && buf[..] == Marked(old(buf[..]), t.kids, k + 1)
  {
    hide Ready, Flatten, FlattenAll, KidAt, CString, TextOf, Holds;
    ReadyHead(js, tokens[..n], root, t, buf[..]);
    k := 0;
    if !tokens[root].kind.Object? {
      return -1, k;
    }
    var numKeys := tokens[root].size / 2;
    var i := root + 1;
    while numKeys > 0
      invariant k + numKeys == |t.kids| / 2 && numKeys >= 0
      invariant i == KidAt(root, t, 2 * k)
      invariant Ready(js, tokens[..n], root, t, buf[..])
      invariant buf[..] == Marked(old(buf[..]), t.kids, k)
      invariant forall j | 0 <= j < k :: !IsMember(js, t, j, key, kind)
    {
      KidReady(js, tokens[..n], root, t, buf[..], 2 * k);
      KidReady(js, tokens[..n], root, t, buf[..], 2 * k + 1);
      ReadyHead(js, tokens[..n], i, t.kids[2 * k], buf[..]);
      if tokens[i].kind.String? {
        LeafReady(js, tokens[..n], root, t, buf[..], i, t.kids[2 * k]);
        buf[tokens[i].end] := '\0';
        if key == CString(buf[..], tokens[i].start) {
          KidReady(js, tokens[..n], root, t, buf[..], 2 * k + 1);
          ReadyHead(js, tokens[..n], i + 1, t.kids[2 * k + 1], buf[..]);
          if tokens[i + 1].kind == kind {
            return i + 1, k;
          }
        }
      }
      KidReady(js, tokens[..n], root, t, buf[..], 2 * k);
      KidReady(js, tokens[..n], root, t, buf[..], 2 * k + 1);
      ReadyHead(js, tokens[..n], i, t.kids[2 * k], buf[..]);
      ReadyHead(js, tokens[..n], KidAt(root, t, 2 * k + 1), t.kids[2 * k + 1], buf[..]);
      i := SkipItem(tokens, n, i, t.kids[2 * k]);
      i := SkipItem(tokens, n, i, t.kids[2 * k + 1]);
      numKeys := numKeys - 1;
      k := k + 1;
    }
    found := -1;
  }

  /** The member's text, as a C string in the buffer; "" when there is no such member. */
  method FindText(tokens: array<Token>, ghost n: nat, root: int, buf: array<char>, key: string, kind: Kind,
    ghost js: Text, ghost t: Tree)
    returns (text: string, found: bool, ghost k: nat)
    requires n <= tokens.Length && Ready(js, tokens[..n], root, t, buf[..]) && (kind.String? || kind.Primitive?)
    modifies buf
    ensures Ready(js, tokens[..n], root, t, buf[..])
    ensures !found ==> text == ""
    ensures !found ==> !t.kind.Object? || forall j | 0 <= j < |t.kids| / 2 :: !IsMember(js, t, j, key, kind)
    ensures found ==>
              && t.kind.Object? && IsMember(js, t, k, key, kind)
              && (forall j | 0 <= j < k :: !IsMember(js, t, j, key, kind))
              && text == TextOf(js, t.kids[2 * k + 1])
  {
    hide Ready, Flatten, FlattenAll, KidAt, CString, TextOf, Holds, Marked;
    var at;
    at, k := FindKey(tokens, n, root, buf, key, kind, js, t);
    if at == -1 {
      return "", false, k;
    }
    LeafReady(js, tokens[..n], root, t, buf[..], at, t.kids[2 * k + 1]);
    buf[tokens[at].end] := '\0';
    text, found := CString(buf[..], tokens[at].start), true;
  }

  /** find_int: the number the member's text starts with. */
  method FindInt(tokens: array<Token>, ghost n: nat, root: int, buf: array<char>, key: string,
    ghost js: Text, ghost t: Tree)
    returns (value: int, found: bool, ghost k: nat)
    requires n <= tokens.Length && Ready(js, tokens[..n], root, t, buf[..])
    modifies buf
    ensures Ready(js, tokens[..n], root, t, buf[..])
    ensures !found ==> value == 0
    ensures !found ==> !t.kind.Object? || forall j | 0 <= j < |t.kids| / 2 :: !IsMember(js, t, j, key, Primitive)
    ensures found ==>
              && t.kind.Object? && IsMember(js, t, k, key, Primitive)
              && (forall j | 0 <= j < k :: !IsMember(js, t, j, key, Primitive))
              && value == Strtoll(TextOf(js, t.kids[2 * k + 1]))
  {
    hide Ready, TextOf, Strtoll;
    var text;
    text, found, k := FindText(tokens, n, root, buf, key, Primitive, js, t);
    value := if found then Strtoll(text) else 0;
  }

  /** find_bool: whether the first member of that name that is a primitive is `true`. */
  method FindBool(tokens: array<Token>, ghost n: nat, root: int, buf: array<char>, key: string,
    ghost js: Text, ghost t: Tree)
    returns (value: bool, ghost found: bool, ghost k: nat)
    requires n <= tokens.Length && Ready(js, tokens[..n], root, t, buf[..])
    modifies buf
    ensures Ready(js, tokens[..n], root, t, buf[..])
    ensures !found ==> !t.kind.Object? || forall j | 0 <= j < |t.kids| / 2 :: !IsMember(js, t, j, key, Primitive)
    ensures found ==>
              && t.kind.Object? && IsMember(js, t, k, key, Primitive)
              && (forall j | 0 <= j < k :: !IsMember(js, t, j, key, Primitive))
    ensures value <==> found && TextOf(js, t.kids[2 * k + 1]) == "true"
  {
    hide Ready, TextOf;
    var text, some;
    text, some, k := FindText(tokens, n, root, buf, key, Primitive, js, t);
    value, found := some && text == "true", some;
  }
}
