/**
 The `{{KEY}}` template resolver of the settings table.

 A settings value is text in which `{{KEY}}` stands for the value of another
 setting. The resolver scans characters, substitutes recursively and carries the
 set of keys it is currently expanding, so that a cycle ends in literal text.

 `Lex` splits a value into tokens without looking at the settings, `Render` gives
 each token its meaning, and the method `ResolveImpl`, which scans and mutates
 like the program does, is proved to compute `Render(Lex(value))`.
 */
module SettingsResolver {
  import opened Options

  type Settings = map<string, string>

  /** A settings table whose values have been lexed. */
  type Book = map<string, Tokens>

  datatype Token = Lit(c: char) | Ref(key: string)

  datatype Tokens = End | More(head: Token, tail: Tokens)

  // ---------------------------------------------------------------- lexing

  predicate KeyChar(c: char) {
    'a' <= c <= 'z' || 'A' <= c <= 'Z' || '0' <= c <= '9' || c == '_' || c == '-'
  }

  predicate ValidKey(k: string) {
    k != "" && forall i :: 0 <= i < |k| ==> KeyChar(k[i])
  }

  function Quoted(k: string): string {
    "{{" + k + "}}"
  }

  /** The end of the run of key characters that starts at `i`. */
  function KeyEnd(s: string, i: nat): (j: nat)
    requires i <= |s|
    ensures i <= j <= |s| && forall x :: i <= x < j ==> KeyChar(s[x])
    ensures j < |s| ==> !KeyChar(s[j])
    decreases |s| - i
  {
    if i < |s| && KeyChar(s[i]) then KeyEnd(s, i + 1) else i
  }

  predicate Pair(s: string, i: nat, c: char) {
    i + 1 < |s| && s[i] == c && s[i + 1] == c
  }

  /** The end of the key of the well-formed reference at position `i`, if there is one there. */
  function RefEnd(s: string, i: nat): (r: Option<nat>)
    requires i <= |s|
    ensures r.Some? ==> i + 2 < r.value && Pair(s, i, '{') && Pair(s, r.value, '}') && ValidKey(s[i + 2..r.value])
  {
    if Pair(s, i, '{') then
      var j := KeyEnd(s, i + 2);
      if i + 2 < j && Pair(s, j, '}') then Some(j) else None
    else
      None
  }

  /** A reference is recognised by its text alone, and its key is unique. */
  lemma RefEndIsQuoted(s: string, i: nat, k: string)
    requires i <= |s|
    ensures RefEnd(s, i) == Some(i + 2 + |k|) && s[i + 2..i + 2 + |k|] == k
       <==> ValidKey(k) && i + |k| + 4 <= |s| && s[i..i + |k| + 4] == Quoted(k)
  {
    var end := i + 2 + |k|;
    if RefEnd(s, i) == Some(end) && s[i + 2..end] == k {
      assert s[i..end + 2] == s[i..i + 2] + s[i + 2..end] + s[end..end + 2];
    }
    if ValidKey(k) && end + 2 <= |s| && s[i..end + 2] == Quoted(k) {
      var q := Quoted(k);
      assert forall x :: i <= x < end + 2 ==> s[x] == s[i..end + 2][x - i] == q[x - i];
      assert forall x :: i + 2 <= x < end ==> s[x] == k[x - i - 2];
      assert s[end] == '}' && KeyEnd(s, i + 2) == end;
    }
  }

  function LexFrom(s: string, i: nat): Tokens
    requires i <= |s|
    decreases |s| - i
  {
    if i == |s| then End
    else match RefEnd(s, i)
      case Some(j) => More(Ref(s[i + 2..j]), LexFrom(s, j + 2))
      case None => More(Lit(s[i]), LexFrom(s, i + 1))
  }

  function Lex(s: string): Tokens {
    LexFrom(s, 0)
  }

  function Text(t: Token): string {
    match t
    case Lit(c) => [c]
    case Ref(k) => Quoted(k)
  }

  function Print(ts: Tokens): string {
    match ts
    case End => ""
    case More(t, rest) => Text(t) + Print(rest)
  }

  /** Where the token that starts at `i` ends. */
  function TokenEnd(s: string, i: nat): (j: nat)
    requires i < |s|
    ensures i < j <= |s|
  {
    match RefEnd(s, i)
    case Some(j) => j + 2
    case None => i + 1
  }

  lemma TokenText(s: string, i: nat)
    requires i < |s|
    ensures LexFrom(s, i).More? && LexFrom(s, i).tail == LexFrom(s, TokenEnd(s, i))
    ensures Text(LexFrom(s, i).head) == s[i..TokenEnd(s, i)]
  {
    match RefEnd(s, i)
    case Some(j) => RefEndIsQuoted(s, i, s[i + 2..j]);
    case None =>
  }

  lemma {:induction false} PrintLexFrom(s: string, i: nat)
    requires i <= |s|
    ensures Print(LexFrom(s, i)) == s[i..]
    decreases |s| - i
  {
    if i < |s| {
      TokenText(s, i);
      assert s[i..] == s[i..TokenEnd(s, i)] + s[TokenEnd(s, i)..];
      PrintLexFrom(s, TokenEnd(s, i));
    }
  }

  /** Lexing loses nothing: the printed tokens are the input. */
  lemma LexRoundTrip(s: string)
    ensures Print(Lex(s)) == s
  {
    PrintLexFrom(s, 0);
    assert s[0..] == s;
  }

  // ---------------------------------------------------------------- meaning

  /** Cyclic and undefined references, like all malformed text, stand for themselves. */
  function RenderToken(t: Token, b: Book, seen: set<string>): string
    decreases b.Keys - seen, 0, t
  {
    match t
    case Lit(c) => [c]
    case Ref(k) =>
      if k in seen || k !in b then Quoted(k)
      else
        assert b.Keys - (seen + {k}) < b.Keys - seen by { assert k in b.Keys - seen; }
        Render(b[k], b, seen + {k})
  }

  function Render(ts: Tokens, b: Book, seen: set<string>): string
    decreases b.Keys - seen, 1, ts
  {
    match ts
    case End => ""
    case More(t, rest) => RenderToken(t, b, seen) + Render(rest, b, seen)
  }

  function LexAll(m: Settings): Book {
    map k | k in m :: Lex(m[k])
  }

  function Resolve(value: string, m: Settings): string {
    Render(Lex(value), LexAll(m), {})
  }

  /** The rendering of `s` from position `i` on. */
  function RenderFrom(s: string, i: nat, b: Book, seen: set<string>): string
    requires i <= |s|
  {
    Render(LexFrom(s, i), b, seen)
  }

  lemma ReferenceStep(s: string, i: nat, b: Book, seen: set<string>)
    requires i <= |s| && RefEnd(s, i).Some?
    ensures var j := RefEnd(s, i).value;
            s[i..j + 2] == Quoted(s[i + 2..j]) &&
            RenderFrom(s, i, b, seen) == RenderToken(Ref(s[i + 2..j]), b, seen) + RenderFrom(s, j + 2, b, seen)
  {
    var j := RefEnd(s, i).value;
    RefEndIsQuoted(s, i, s[i + 2..j]);
  }

  lemma LiteralStep(s: string, i: nat, b: Book, seen: set<string>)
    requires i < |s| && RefEnd(s, i) == None
    ensures RenderFrom(s, i, b, seen) == [s[i]] + RenderFrom(s, i + 1, b, seen)
  {
    assert LexFrom(s, i) == More(Lit(s[i]), LexFrom(s, i + 1));
    assert RenderToken(Lit(s[i]), b, seen) == [s[i]];
  }

  lemma {:induction false} LiteralSteps(s: string, i: nat, j: nat, b: Book, seen: set<string>)
    requires i <= j <= |s| && forall x :: i <= x < j ==> RefEnd(s, x) == None
    ensures RenderFrom(s, i, b, seen) == s[i..j] + RenderFrom(s, j, b, seen)
    decreases j - i
  {
    if i < j {
      LiteralStep(s, i, b, seen);
      LiteralSteps(s, i + 1, j, b, seen);
      assert s[i..j] == [s[i]] + s[i + 1..j];
    }
  }

  /** Skipping an undefined reference one character at a time prints it verbatim. */
  lemma UndefinedStep(s: string, i: nat, b: Book, seen: set<string>)
    requires i <= |s| && RefEnd(s, i).Some? && s[i + 2..RefEnd(s, i).value] !in b
    ensures RenderFrom(s, i, b, seen) == [s[i]] + RenderFrom(s, i + 1, b, seen)
  {
    var j := RefEnd(s, i).value;
    ReferenceStep(s, i, b, seen);
    forall x | i + 1 <= x < j + 2 ensures RefEnd(s, x) == None {
      if i + 2 <= x < j {
        assert KeyChar(s[i + 2..j][x - i - 2]);
      } else if x == i + 1 {
        assert KeyChar(s[i + 2..j][0]);
      }
    }
    LiteralSteps(s, i + 1, j + 2, b, seen);
    assert s[i..j + 2] == [s[i]] + s[i + 1..j + 2];
  }

  // ---------------------------------------------------------------- the program

  /** The set of keys being expanded, shared and mutated by the recursive calls. */
  class KeySet {
    var keys: set<string>

    constructor ()
      ensures keys == {}
    {
      keys := {};
    }
  }

  /** The look-ahead of the scan: search the first "}}", then check the key in between. */
  method ReferenceAt(s: string, i: nat) returns (r: Option<nat>)
    requires i < |s|
    ensures r == RefEnd(s, i)
  {
    if !(s[i] == '{' && i + 1 < |s| && s[i + 1] == '{') {
      return None;
    }
    var j := i + 2;
    while j + 1 < |s| && !(s[j] == '}' && s[j + 1] == '}')
      invariant i + 2 <= j
      invariant forall x :: i + 2 <= x < j ==> !Pair(s, x, '}')
    {
      j := j + 1;
    }
    if j + 1 < |s| && ValidKey(s[i + 2..j]) {
      assert forall x :: i + 2 <= x < j ==> s[x] == s[i + 2..j][x - i - 2];
      assert KeyEnd(s, i + 2) == j;
      return Some(j);
    }
    return None;
  }

  lemma Reassociate(out: string, piece: string, tail: string)
    ensures out + (piece + tail) == (out + piece) + tail
  {
  }

  /**
   `resolve_impl`: terminates on every map, cyclic ones included, because each
   recursive call adds a key of the map to `seen`; gives `seen` back unchanged.
   */
  method ResolveImpl(value: string, m: Settings, seen: KeySet) returns (out: string)
    modifies seen
    ensures seen.keys == old(seen.keys)
    ensures out == Render(Lex(value), LexAll(m), old(seen.keys))
    decreases m.Keys - seen.keys
  {
    var n := |value|;
    ghost var keys := seen.keys;
    ghost var b := LexAll(m);
    ghost var all := RenderFrom(value, 0, b, keys);
    out := "";
    var i := 0;
    while i < n
      invariant 0 <= i <= n
      invariant seen.keys == keys
      invariant all == out + RenderFrom(value, i, b, keys)
    {
      var end := ReferenceAt(value, i);
      var piece, next;
      if end.Some? && value[i + 2..end.value] in seen.keys {
        ReferenceStep(value, i, b, keys);
        next := end.value + 2;
        piece := value[i..next];
      } else if end.Some? && value[i + 2..end.value] in m {
        ReferenceStep(value, i, b, keys);
        var key := value[i + 2..end.value];
        next := end.value + 2;
        seen.keys := seen.keys + {key};
        assert key in m.Keys - keys;
        piece := ResolveImpl(m[key], m, seen);
        seen.keys := seen.keys - {key};
        assert seen.keys == keys;
      } else {
        if end.Some? {
          UndefinedStep(value, i, b, keys);
        } else {
          LiteralStep(value, i, b, keys);
        }
        next := i + 1;
        piece := [value[i]];
      }
      Reassociate(out, piece, RenderFrom(value, next, b, keys));
      out := out + piece;
      i := next;
    }
  }

  /** `resolve_value_with_map`. */
  method ResolveValueWithMap(value: string, m: Settings) returns (out: string)
    ensures out == Resolve(value, m)
  {
    var seen := new KeySet();
    out := ResolveImpl(value, m, seen);
  }

  // ---------------------------------------------------------------- expansion without a set of seen keys

  /** A reference is expanded with its own setting taken off the table; what is not on the table stays as written. */
  function Expand(ts: Tokens, b: Book): string
    decreases b.Keys, ts
  {
    match ts
    case End => ""
    case More(Lit(c), rest) => [c] + Expand(rest, b)
    case More(Ref(k), rest) =>
      (if k !in b then "{{" + k + "}}"
       else
         assert (b - {k}).Keys < b.Keys by { assert k in b.Keys && k !in (b - {k}).Keys; }
         Expand(b[k], b - {k})) + Expand(rest, b)
  }

  /** Being expanded is being absent: on every table, cyclic ones included, the resolver is this expansion. */
  lemma {:induction false} ResolverExpands(ts: Tokens, b: Book, seen: set<string>)
    ensures Render(ts, b, seen) == Expand(ts, b - seen)
    decreases b.Keys - seen, ts
  {
    if ts.More? {
      ResolverExpands(ts.tail, b, seen);
      if ts.head.Ref? && ts.head.key in b - seen {
        var k := ts.head.key;
        assert k in b.Keys - seen;
        ResolverExpands(b[k], b, seen + {k});
        assert b - (seen + {k}) == b - seen - {k};
      }
    }
  }

  // ---------------------------------------------------------------- plain substitution

  /** Substitution without any cycle check, cut off at a nesting depth. */
  function PlainToken(t: Token, b: Book, depth: nat): Option<string>
    decreases depth, 0, t
  {
    match t
    case Lit(c) => Some([c])
    case Ref(k) =>
      if k !in b then Some(Quoted(k))
      else if depth == 0 then None
      else Plain(b[k], b, depth - 1)
  }

  function Plain(ts: Tokens, b: Book, depth: nat): Option<string>
    decreases depth, 1, ts
  {
    match ts
    case End => Some("")
    case More(t, rest) =>
      var head := PlainToken(t, b, depth);
      var tail := Plain(rest, b, depth);
      if head.Some? && tail.Some? then Some(head.value + tail.value) else None
  }

  predicate Has(ts: Tokens, t: Token) {
    ts.More? && (ts.head == t || Has(ts.tail, t))
  }

  /** Plain substitution of `ts` finishes at some nesting depth. */
  ghost predicate Terminates(ts: Tokens, b: Book) {
    exists d: nat :: Plain(ts, b, d).Some?
  }

  lemma {:induction false} PlainMonotone(ts: Tokens, b: Book, d: nat, e: nat)
    requires d <= e && Plain(ts, b, d).Some?
    ensures Plain(ts, b, e) == Plain(ts, b, d)
    decreases d, ts
  {
    if ts.More? {
      PlainMonotone(ts.tail, b, d, e);
      if ts.head.Ref? && ts.head.key in b {
        PlainMonotone(b[ts.head.key], b, d - 1, e - 1);
      }
    }
  }

  /** The least depth at which a terminating substitution finishes. */
  lemma {:induction false} LeastDepth(ts: Tokens, b: Book, d: nat) returns (f: nat)
    requires Plain(ts, b, d).Some?
    ensures f <= d && Plain(ts, b, f).Some?
    ensures forall g: nat :: g < f ==> Plain(ts, b, g) == None
  {
    f := d;
    while f > 0 && Plain(ts, b, f - 1).Some?
      invariant f <= d && Plain(ts, b, f).Some?
    {
      f := f - 1;
    }
    forall g: nat | g < f ensures Plain(ts, b, g) == None {
      if Plain(ts, b, g).Some? {
        PlainMonotone(ts, b, g, f - 1);
      }
    }
  }

  /**
   The cycle check never fires where plain substitution finishes: a key in `seen`
   needs at least depth `d`, so a reference to it below depth `d` cannot finish.
   */
  lemma {:induction false} CycleCheckTransparent(ts: Tokens, b: Book, seen: set<string>, d: nat)
    requires Plain(ts, b, d).Some?
    requires forall k :: k in seen ==> k in b && forall g: nat :: g < d ==> Plain(b[k], b, g) == None
    ensures Render(ts, b, seen) == Plain(ts, b, d).value
    decreases d, ts
  {
    if ts.More? {
      CycleCheckTransparent(ts.tail, b, seen, d);
      if ts.head.Ref? && ts.head.key in b {
        var k := ts.head.key;
        var f := LeastDepth(b[k], b, d - 1);
        PlainMonotone(b[k], b, f, d - 1);
        CycleCheckTransparent(b[k], b, seen + {k}, f);
      }
    }
  }

  // ---------------------------------------------------------------- cycles

  /** `p` follows references from one defined setting to the next. */
  ghost predicate RefPath(p: seq<string>, b: Book) {
    && (forall i :: 0 <= i < |p| ==> p[i] in b)
    && forall i, j :: 0 <= i < j < |p| && j == i + 1 ==> Has(b[p[i]], Ref(p[j]))
  }

  ghost predicate Cycle(p: seq<string>, b: Book) {
    RefPath(p, b) && |p| >= 2 && p[0] == p[|p| - 1]
  }

  ghost predicate Acyclic(b: Book) {
    forall p: seq<string> :: !Cycle(p, b)
  }

  /** A path of references that starts in `ts` and runs into a cycle. */
  ghost predicate Lasso(ts: Tokens, b: Book, p: seq<string>, i: nat) {
    RefPath(p, b) && i < |p| - 1 && Has(ts, Ref(p[0])) && p[i] == p[|p| - 1]
  }

  lemma {:induction false} UnfinishedHasPath(ts: Tokens, b: Book, d: nat) returns (p: seq<string>)
    requires Plain(ts, b, d) == None
    ensures |p| == d + 1 && RefPath(p, b) && Has(ts, Ref(p[0]))
    decreases d, ts
  {
    if PlainToken(ts.head, b, d).None? {
      var k := ts.head.key;
      if d == 0 {
        p := [k];
      } else {
        var q := UnfinishedHasPath(b[k], b, d - 1);
        p := [k] + q;
        forall i, j | 0 <= i < j < |p| && j == i + 1 ensures Has(b[p[i]], Ref(p[j])) {
          assert p[j] == q[i];
          if i > 0 {
            assert p[i] == q[i - 1];
          }
        }
      }
    } else {
      p := UnfinishedHasPath(ts.tail, b, d);
    }
  }

  lemma {:induction false} PigeonHole(p: seq<string>, keys: set<string>) returns (i: nat, j: nat)
    requires |p| > |keys| && forall x :: 0 <= x < |p| ==> p[x] in keys
    ensures i < j < |p| && p[i] == p[j]
    decreases |p|
  {
    var last := |p| - 1;
    if x :| 0 <= x < last && p[x] == p[last] {
      return x, last;
    }
    i, j := PigeonHole(p[..last], keys - {p[last]});
  }

  /** Substitution that does not finish within as many levels as there are settings meets a cycle. */
  lemma UnfinishedHasLasso(ts: Tokens, b: Book) returns (p: seq<string>, i: nat)
    requires Plain(ts, b, |b|) == None
    ensures Lasso(ts, b, p, i)
  {
    var q := UnfinishedHasPath(ts, b, |b|);
    assert |b.Keys| == |b|;
    var x, y := PigeonHole(q, b.Keys);
    p, i := q[..y + 1], x;
    assert RefPath(p, b);
  }

  lemma {:induction false} InTokens(ts: Tokens, b: Book, t: Token, d: nat)
    requires Has(ts, t) && Plain(ts, b, d).Some?
    ensures PlainToken(t, b, d).Some?
  {
    if ts.head != t {
      InTokens(ts.tail, b, t, d);
    }
  }

  /** Along a path of references the needed depth drops by at least one per step. */
  lemma {:induction false} DepthAlongPath(p: seq<string>, b: Book, i: nat, j: nat, d: nat)
    requires RefPath(p, b) && i <= j < |p| && Plain(b[p[i]], b, d).Some?
    ensures j - i <= d && Plain(b[p[j]], b, d - (j - i)).Some?
    decreases j - i
  {
    if i < j {
      InTokens(b[p[i]], b, Ref(p[i + 1]), d);
      DepthAlongPath(p, b, i + 1, j, d - 1);
    }
  }

  lemma LassoNeverFinishes(ts: Tokens, b: Book, p: seq<string>, i: nat, d: nat)
    requires Lasso(ts, b, p, i)
    ensures Plain(ts, b, d) == None
  {
    if Plain(ts, b, d).Some? {
      InTokens(ts, b, Ref(p[0]), d);
      DepthAlongPath(p, b, 0, i, d - 1);
      var f := LeastDepth(b[p[i]], b, d - 1 - i);
      DepthAlongPath(p, b, i, |p| - 1, f);
      assert false;
    }
  }

  /** Plain substitution finishes exactly on the values from which no cycle is reachable. */
  lemma TerminatesIffNoLasso(ts: Tokens, b: Book)
    ensures Terminates(ts, b) <==> forall p: seq<string>, i: nat :: !Lasso(ts, b, p, i)
    ensures Terminates(ts, b) <==> Plain(ts, b, |b|).Some?
  {
    if Plain(ts, b, |b|) == None {
      var p, i := UnfinishedHasLasso(ts, b);
      assert Lasso(ts, b, p, i);
    }
    forall p: seq<string>, i: nat, d: nat | Lasso(ts, b, p, i) ensures Plain(ts, b, d) == None {
      LassoNeverFinishes(ts, b, p, i, d);
    }
  }

  /** Wherever plain substitution finishes, at whatever depth, the resolver agrees with it. */
  lemma ResolveIsPlain(value: string, m: Settings, d: nat)
    requires Plain(Lex(value), LexAll(m), d).Some?
    ensures Plain(Lex(value), LexAll(m), d) == Some(Resolve(value, m))
  {
    CycleCheckTransparent(Lex(value), LexAll(m), {}, d);
  }

  /** On an acyclic settings table the resolver is plain recursive substitution, for every value. */
  lemma AcyclicIsPlain(value: string, m: Settings)
    requires Acyclic(LexAll(m))
    ensures Plain(Lex(value), LexAll(m), |LexAll(m)|) == Some(Resolve(value, m))
  {
    var ts, b := Lex(value), LexAll(m);
    if Plain(ts, b, |b|) == None {
      var p, i := UnfinishedHasLasso(ts, b);
      forall x, y | 0 <= x < y < |p[i..]| && y == x + 1 ensures Has(b[p[i..][x]], Ref(p[i..][y])) {
        assert p[i..][x] == p[i + x] && p[i..][y] == p[i + y];
      }
      assert Cycle(p[i..], b);
    }
    ResolveIsPlain(value, m, |LexAll(m)|);
  }

  // ---------------------------------------------------------------- reading one setting

  /** `get_setting`: the raw value of `key`, resolved; the key itself is not marked as seen. */
  function GetSetting(key: string, m: Settings): Option<string> {
    if key in m then Some(Resolve(m[key], m)) else None
  }

  /** A path of references leads from `ts` to the setting `k`. */
  ghost predicate Leads(ts: Tokens, b: Book, k: string) {
    exists p: seq<string> :: LeadsBy(ts, b, k, p)
  }

  ghost predicate LeadsBy(ts: Tokens, b: Book, k: string, p: seq<string>) {
    RefPath(p, b) && p != [] && Has(ts, Ref(p[0])) && p[|p| - 1] == k
  }

  /** Marking a setting as seen changes nothing where no reference leads to it. */
  lemma {:induction false} SeenIrrelevant(ts: Tokens, b: Book, seen: set<string>, k: string)
    requires k in b && !Leads(ts, b, k)
    ensures Render(ts, b, seen) == Render(ts, b, seen + {k})
    decreases b.Keys - seen, ts
  {
    if ts.More? {
      if Leads(ts.tail, b, k) {
        var p :| LeadsBy(ts.tail, b, k, p);
        assert LeadsBy(ts, b, k, p);
      }
      SeenIrrelevant(ts.tail, b, seen, k);
      if ts.head.Ref? && ts.head.key in b {
        var j := ts.head.key;
        assert RefPath([j], b);
        assert j == k ==> LeadsBy(ts, b, k, [j]);
        forall q | LeadsBy(b[j], b, k, q) ensures LeadsBy(ts, b, k, [j] + q) {
          var p := [j] + q;
          forall x, y | 0 <= x < y < |p| && y == x + 1 ensures Has(b[p[x]], Ref(p[y])) {
            assert p[y] == q[x];
            assert x > 0 ==> p[x] == q[x - 1];
          }
        }
        if j !in seen {
          assert j in b.Keys - seen;
          SeenIrrelevant(b[j], b, seen + {j}, k);
          assert seen + {j} + {k} == seen + {k} + {j};
        }
      }
    }
  }

  /**
   Reading a setting and resolving a reference to it give the same text, whatever cycles there are
   elsewhere, unless references lead from its value back to itself.
   */
  lemma GetSettingIsReference(k: string, m: Settings)
    requires ValidKey(k) && k in m && !Leads(Lex(m[k]), LexAll(m), k)
    ensures GetSetting(k, m) == Some(Resolve(Quoted(k), m))
  {
    var b := LexAll(m);
    var q := Quoted(k);
    assert q[0..|q|] == q;
    RefEndIsQuoted(q, 0, k);
    assert LexFrom(q, |q|) == End;
    assert Lex(q) == More(Ref(k), End);
    SeenIrrelevant(b[k], b, {}, k);
    var text := RenderToken(Ref(k), b, {});
    assert Render(More(Ref(k), End), b, {}) == text + "";
    assert text + "" == text;
  }
}
