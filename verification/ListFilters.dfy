/**
 The filter language of the list endpoints, and its two hand-written scanners.

 A filter is text such as `name:big cat & tag:x | owner:me`. The meaning is given by
 splitting: the tokens at each `|` into groups, a group at each `&` into segments, and a
 segment yields the clause of its first token that has a colon. The scanners walk the
 tokens once with a cursor and are proved to find exactly these clauses.
 */
module ListFilters {
  import opened Options

  datatype Clause = Clause(key: string, value: string)

  /** A database condition; `Leaf(i, v)` is what the i-th mapping builds from the value `v`. */
  datatype Cond = Leaf(mapping: nat, value: string) | All(conds: seq<Cond>) | Any(conds: seq<Cond>)

  predicate Holds(c: Cond, truth: (nat, string) -> bool) {
    match c
    case Leaf(i, v) => truth(i, v)
    case All(cs) => forall i :: 0 <= i < |cs| ==> Holds(cs[i], truth)
    case Any(cs) => exists i :: 0 <= i < |cs| && Holds(cs[i], truth)
  }

  predicate Operator(token: string) {
    token == "&" || token == "|"
  }

  // ---------------------------------------------------------------- clauses by splitting

  /** Add `x` to the first of the parts. */
  function Push<T>(x: T, parts: seq<seq<T>>): seq<seq<T>>
    requires parts != []
  {
    [[x] + parts[0]] + parts[1..]
  }

  function Split(tokens: seq<string>, at: string): (parts: seq<seq<string>>)
    ensures parts != []
  {
    if tokens == [] then [[]]
    else
      var rest := Split(tokens[1..], at);
      if tokens[0] == at then [[]] + rest else Push(tokens[0], rest)
  }

  /** The position of the first colon; the length when there is none. */
  function Colon(token: string): (p: nat)
    ensures p <= |token| && (p < |token| ==> token[p] == ':') && forall i :: 0 <= i < p ==> token[i] != ':'
  {
    if token == "" || token[0] == ':' then 0 else 1 + Colon(token[1..])
  }

  predicate Keyed(token: string) {
    Colon(token) < |token|
  }

  /** `v` followed by the words, separated by single spaces. */
  function Joined(v: string, words: seq<string>): string
    decreases |words|
  {
    if words == [] then v else Joined(v + " " + words[0], words[1..])
  }

  function MakeClause(token: string, words: seq<string>): Clause
    requires Keyed(token)
  {
    Clause(token[..Colon(token)], Joined(token[Colon(token) + 1..], words))
  }

  /** At most one clause: the first keyed token opens it, the rest of the segment is its value. */
  function SegmentClause(segment: seq<string>): seq<Clause> {
    if segment == [] then []
    else if Keyed(segment[0]) then [MakeClause(segment[0], segment[1..])]
    else SegmentClause(segment[1..])
  }

  function SegmentClauses(segments: seq<seq<string>>): seq<Clause> {
    if segments == [] then [] else SegmentClause(segments[0]) + SegmentClauses(segments[1..])
  }

  /** The clauses of one group. */
  function GroupClauses(group: seq<string>): seq<Clause> {
    SegmentClauses(Split(group, "&"))
  }

  function EachGroup(groups: seq<seq<string>>): (r: seq<seq<Clause>>)
    ensures |r| == |groups|
  {
    if groups == [] then [] else [GroupClauses(groups[0])] + EachGroup(groups[1..])
  }

  /** The OR of ANDs that a token list stands for. */
  function Groups(tokens: seq<string>): (r: seq<seq<Clause>>)
    ensures r != []
  {
    EachGroup(Split(tokens, "|"))
  }

  // ---------------------------------------------------------------- how one token changes the clauses

  lemma GroupsOfNothing()
    ensures Groups([]) == [[]]
  {
    assert Split([], "&") == [[]];
    assert SegmentClauses([[]]) == [];
    assert GroupClauses([]) == [];
    assert EachGroup([[]]) == [[]];
  }

  lemma GroupsBar(ts: seq<string>)
    ensures Groups(["|"] + ts) == [[]] + Groups(ts)
  {
    assert (["|"] + ts)[1..] == ts;
    GroupsOfNothing();
    assert ([[]] + Split(ts, "|"))[1..] == Split(ts, "|");
  }

  /** Pushing a token other than `|` affects the first group only. */
  lemma GroupsPush(token: string, ts: seq<string>)
    requires token != "|"
    ensures Split(ts, "|") != []
    ensures Groups([token] + ts) == [GroupClauses([token] + Split(ts, "|")[0])] + Groups(ts)[1..]
    ensures Groups(ts)[0] == GroupClauses(Split(ts, "|")[0])
  {
    assert ([token] + ts)[1..] == ts;
    assert Push(token, Split(ts, "|"))[1..] == Split(ts, "|")[1..];
  }

  lemma GroupsAmp(ts: seq<string>)
    ensures Groups(["&"] + ts) == Groups(ts)
  {
    GroupsPush("&", ts);
    var first := Split(ts, "|")[0];
    assert (["&"] + first)[1..] == first;
    var segs := Split(first, "&");
    assert ([[]] + segs)[1..] == segs;
    assert SegmentClauses([[]] + segs) == [] + SegmentClauses(segs);
    assert [] + SegmentClauses(segs) == SegmentClauses(segs);
    assert Groups(ts) == [Groups(ts)[0]] + Groups(ts)[1..];
  }

  lemma GroupsLoose(token: string, ts: seq<string>)
    requires !Operator(token) && !Keyed(token)
    ensures Groups([token] + ts) == Groups(ts)
  {
    GroupsPush(token, ts);
    var first := Split(ts, "|")[0];
    var segs := Split(first, "&");
    assert ([token] + first)[1..] == first;
    assert Push(token, segs)[1..] == segs[1..];
    assert ([token] + segs[0])[1..] == segs[0];
    assert Groups(ts) == [Groups(ts)[0]] + Groups(ts)[1..];
  }

  lemma {:induction false} SplitRun(words: seq<string>, rest: seq<string>, at: string)
    requires at !in words
    ensures Split(words + rest, at) == [words + Split(rest, at)[0]] + Split(rest, at)[1..]
  {
    var r := Split(rest, at);
    if words == [] {
      assert words + rest == rest;
      assert [] + r[0] == r[0];
      assert r == [r[0]] + r[1..];
    } else {
      SplitRun(words[1..], rest, at);
      assert (words + rest)[1..] == words[1..] + rest;
      assert [words[0]] + (words[1..] + r[0]) == words + r[0];
    }
  }

  /** A keyed token takes all words up to the next operator as its value. */
  lemma GroupsKeyed(token: string, words: seq<string>, rest: seq<string>)
    requires !Operator(token) && Keyed(token)
    requires forall i :: 0 <= i < |words| ==> !Operator(words[i])
    requires rest == [] || Operator(rest[0])
    ensures Groups([token] + words + rest) == Push(MakeClause(token, words), Groups(rest))
  {
    var run := [token] + words;
    SplitRun(run, rest, "|");
    var gs := Split(rest, "|");
    assert gs[0] == [] || gs[0][0] == "&";
    SplitRun(run, gs[0], "&");
    assert run + [] == run;
    var segs := Split(gs[0], "&");
    assert ([run] + segs[1..])[1..] == segs[1..];
    assert run[1..] == words;
    assert SegmentClause(run) == [MakeClause(token, words)];
    assert SegmentClauses(segs) == SegmentClause(segs[0]) + SegmentClauses(segs[1..]);
    assert SegmentClause(segs[0]) == [];
    assert GroupClauses(gs[0]) == SegmentClauses(segs[1..]);
    assert GroupClauses(run + gs[0]) == [MakeClause(token, words)] + GroupClauses(gs[0]);
    assert ([run + gs[0]] + gs[1..])[1..] == gs[1..];
  }

  // ---------------------------------------------------------------- conditions

  /** The first mapping with a key; the number of mappings when there is none. */
  function Find(mappings: seq<string>, key: string): (i: nat)
    ensures i <= |mappings| && (i < |mappings| ==> mappings[i] == key)
    ensures forall j :: 0 <= j < i ==> mappings[j] != key
  {
    if mappings == [] || mappings[0] == key then 0 else 1 + Find(mappings[1..], key)
  }

  predicate Known(mappings: seq<string>, c: Clause) {
    c.key in mappings
  }

  function ClauseLeaf(mappings: seq<string>, c: Clause): seq<Cond> {
    var i := Find(mappings, c.key);
    if i < |mappings| then [Leaf(i, c.value)] else []
  }

  function Leaves(mappings: seq<string>, cs: seq<Clause>): seq<Cond> {
    if cs == [] then [] else ClauseLeaf(mappings, cs[0]) + Leaves(mappings, cs[1..])
  }

  function Conjunction(leaves: seq<Cond>): seq<Cond> {
    if leaves == [] then [] else [All(leaves)]
  }

  function Disjuncts(mappings: seq<string>, groups: seq<seq<Clause>>): seq<Cond> {
    if groups == [] then []
    else Conjunction(Leaves(mappings, groups[0])) + Disjuncts(mappings, groups[1..])
  }

  function Disjunction(disjuncts: seq<Cond>): Option<Cond> {
    if disjuncts == [] then None else Some(Any(disjuncts))
  }

  /** A known clause is true on a row when the condition of its mapping is. */
  predicate True(mappings: seq<string>, c: Clause, truth: (nat, string) -> bool)
    requires Known(mappings, c)
  {
    truth(Find(mappings, c.key), c.value)
  }

  /** The group selects a row: it has a known clause, and all its known clauses are true. */
  ghost predicate Selects(mappings: seq<string>, g: seq<Clause>, truth: (nat, string) -> bool) {
    && (exists c :: c in g && Known(mappings, c))
    && forall c :: c in g && Known(mappings, c) ==> True(mappings, c, truth)
  }

  lemma AllAppend(a: seq<Cond>, b: seq<Cond>, truth: (nat, string) -> bool)
    ensures Holds(All(a + b), truth) <==> Holds(All(a), truth) && Holds(All(b), truth)
  {
    assert forall i :: 0 <= i < |a| ==> (a + b)[i] == a[i];
    if Holds(All(a + b), truth) {
      forall i | 0 <= i < |b| ensures Holds(b[i], truth) {
        assert (a + b)[|a| + i] == b[i];
      }
    }
  }

  lemma AnyAppend(a: seq<Cond>, b: seq<Cond>, truth: (nat, string) -> bool)
    ensures Holds(Any(a + b), truth) <==> Holds(Any(a), truth) || Holds(Any(b), truth)
  {
    assert forall i :: 0 <= i < |a| ==> (a + b)[i] == a[i];
    if i :| 0 <= i < |b| && Holds(b[i], truth) {
      assert (a + b)[|a| + i] == b[i];
    }
  }

  lemma OneLeaf(mappings: seq<string>, c: Clause, truth: (nat, string) -> bool)
    ensures ClauseLeaf(mappings, c) != [] <==> Known(mappings, c)
    ensures Holds(All(ClauseLeaf(mappings, c)), truth) <==> (Known(mappings, c) ==> True(mappings, c, truth))
  {
    if Known(mappings, c) {
      assert Holds(ClauseLeaf(mappings, c)[0], truth) <==> True(mappings, c, truth);
    }
  }

  lemma {:induction false} LeavesMeaning(mappings: seq<string>, cs: seq<Clause>, truth: (nat, string) -> bool)
    ensures Leaves(mappings, cs) != [] <==> exists c :: c in cs && Known(mappings, c)
    ensures Holds(All(Leaves(mappings, cs)), truth) <==> forall c :: c in cs && Known(mappings, c) ==> True(mappings, c, truth)
  {
    if cs != [] {
      LeavesMeaning(mappings, cs[1..], truth);
      OneLeaf(mappings, cs[0], truth);
      AllAppend(ClauseLeaf(mappings, cs[0]), Leaves(mappings, cs[1..]), truth);
      assert forall c :: c in cs <==> c == cs[0] || c in cs[1..];
    }
  }

  lemma OneDisjunct(mappings: seq<string>, g: seq<Clause>, truth: (nat, string) -> bool)
    ensures Holds(Any(Conjunction(Leaves(mappings, g))), truth) <==> Selects(mappings, g, truth)
  {
    LeavesMeaning(mappings, g, truth);
    var all := All(Leaves(mappings, g));
    assert Holds(Any([all]), truth) <==> Holds([all][0], truth);
  }

  /** Some disjunct holds exactly when some group selects the row; there is none exactly when no key is known. */
  lemma {:induction false} DisjunctsMeaning(mappings: seq<string>, gs: seq<seq<Clause>>, truth: (nat, string) -> bool)
    ensures Holds(Any(Disjuncts(mappings, gs)), truth) <==> exists g :: g in gs && Selects(mappings, g, truth)
    ensures Disjuncts(mappings, gs) == [] <==> forall g, c :: g in gs && c in g ==> !Known(mappings, c)
  {
    if gs != [] {
      DisjunctsMeaning(mappings, gs[1..], truth);
      LeavesMeaning(mappings, gs[0], truth);
      OneDisjunct(mappings, gs[0], truth);
      AnyAppend(Conjunction(Leaves(mappings, gs[0])), Disjuncts(mappings, gs[1..]), truth);
      assert forall g :: g in gs <==> g == gs[0] || g in gs[1..];
    }
  }

  // ---------------------------------------------------------------- the scanners

  /** The end of the run of words that starts at `i`. */
  function RunEnd(tokens: seq<string>, i: nat): (j: nat)
    requires i <= |tokens|
    ensures i <= j <= |tokens| && (forall x :: i <= x < j ==> !Operator(tokens[x])) && (j < |tokens| ==> Operator(tokens[j]))
    decreases |tokens| - i
  {
    if i < |tokens| && !Operator(tokens[i]) then RunEnd(tokens, i + 1) else i
  }

  lemma {:induction false} JoinedAppend(v: string, words: seq<string>, w: string)
    ensures Joined(v, words + [w]) == Joined(v, words) + " " + w
    decreases |words|
  {
    if words == [] {
      assert (words + [w])[1..] == [];
      assert Joined(v + " " + w, []) == v + " " + w;
    } else {
      JoinedAppend(v + " " + words[0], words[1..], w);
      assert (words + [w])[1..] == words[1..] + [w];
    }
  }

  /** Both scanners' inner loop: the value of a keyed token runs to the next operator. */
  method ScanValue(tokens: seq<string>, i: nat) returns (value: string, j: nat)
    requires i < |tokens| && Keyed(tokens[i])
    ensures j == RunEnd(tokens, i + 1)
    ensures value == Joined(tokens[i][Colon(tokens[i]) + 1..], tokens[i + 1..j])
  {
    var v := tokens[i][Colon(tokens[i]) + 1..];
    value := v;
    j := i + 1;
    while j < |tokens| && tokens[j] != "&" && tokens[j] != "|"
      invariant i + 1 <= j <= |tokens|
      invariant forall x :: i + 1 <= x < j ==> !Operator(tokens[x])
      invariant value == Joined(v, tokens[i + 1..j])
    {
      JoinedAppend(v, tokens[i + 1..j], tokens[j]);
      assert tokens[i + 1..j + 1] == tokens[i + 1..j] + [tokens[j]];
      value := value + " " + tokens[j];
      j := j + 1;
    }
    RunEndUnique(tokens, i + 1, j);
  }

  /** The condition of the clause that opens at `i`, if its key is known. */
  function LeafAt(mappings: seq<string>, tokens: seq<string>, i: nat): seq<Cond>
    requires i < |tokens| && Keyed(tokens[i])
  {
    ClauseLeaf(mappings, MakeClause(tokens[i], tokens[i + 1..RunEnd(tokens, i + 1)]))
  }

  /** Both scanners on a keyed token: scan its value, then look its key up in the mappings. */
  method ScanClause(tokens: seq<string>, i: nat, mappings: seq<string>) returns (leaf: seq<Cond>, j: nat)
    requires i < |tokens| && Keyed(tokens[i])
    ensures j == RunEnd(tokens, i + 1) && leaf == LeafAt(mappings, tokens, i)
  {
    var value;
    value, j := ScanValue(tokens, i);
    var m := Find(mappings, tokens[i][..Colon(tokens[i])]);
    leaf := if m < |mappings| then [Leaf(m, value)] else [];
  }

  lemma {:induction false} RunEndUnique(tokens: seq<string>, i: nat, j: nat)
    requires i <= j <= |tokens| && (forall x :: i <= x < j ==> !Operator(tokens[x])) && (j < |tokens| ==> Operator(tokens[j]))
    ensures RunEnd(tokens, i) == j
    decreases j - i
  {
    if i < j {
      RunEndUnique(tokens, i + 1, j);
    }
  }

  /** The clauses from position `i` on. */
  function GroupsFrom(tokens: seq<string>, i: nat): seq<seq<Clause>>
    requires i <= |tokens|
  {
    Groups(tokens[i..])
  }

  /** What one turn of a scanner's loop takes from the clauses that are left. */
  lemma ScanStep(tokens: seq<string>, i: nat)
    requires i < |tokens|
    ensures tokens[i] == "|" ==> GroupsFrom(tokens, i) == [[]] + GroupsFrom(tokens, i + 1)
    ensures tokens[i] == "&" || (!Operator(tokens[i]) && !Keyed(tokens[i])) ==> GroupsFrom(tokens, i) == GroupsFrom(tokens, i + 1)
    ensures !Operator(tokens[i]) && Keyed(tokens[i]) ==>
              var j := RunEnd(tokens, i + 1);
              GroupsFrom(tokens, i) == Push(MakeClause(tokens[i], tokens[i + 1..j]), GroupsFrom(tokens, j))
  {
    assert tokens[i..] == [tokens[i]] + tokens[i + 1..];
    if tokens[i] == "|" {
      GroupsBar(tokens[i + 1..]);
    } else if tokens[i] == "&" {
      GroupsAmp(tokens[i + 1..]);
    } else if !Keyed(tokens[i]) {
      GroupsLoose(tokens[i], tokens[i + 1..]);
    } else {
      var j := RunEnd(tokens, i + 1);
      GroupsKeyed(tokens[i], tokens[i + 1..j], tokens[j..]);
      assert tokens[i..] == [tokens[i]] + tokens[i + 1..j] + tokens[j..];
    }
  }

  /** The disjuncts of a scan in progress: finished ones, the open conjunction, and the clauses ahead. */
  function Pending(mappings: seq<string>, ors: seq<Cond>, ands: seq<Cond>, ahead: seq<seq<Clause>>): seq<Cond>
    requires ahead != []
  {
    ors + Conjunction(ands + Leaves(mappings, ahead[0])) + Disjuncts(mappings, ahead[1..])
  }

  lemma PendingBar(mappings: seq<string>, ors: seq<Cond>, ands: seq<Cond>, ahead: seq<seq<Clause>>)
    requires ahead != []
    ensures Pending(mappings, ors, ands, [[]] + ahead) == Pending(mappings, ors + Conjunction(ands), [], ahead)
  {
    assert ([[]] + ahead)[1..] == ahead;
    assert ands + [] == ands;
    assert [] + Leaves(mappings, ahead[0]) == Leaves(mappings, ahead[0]);
  }

  lemma PendingClause(mappings: seq<string>, ors: seq<Cond>, ands: seq<Cond>, c: Clause, ahead: seq<seq<Clause>>)
    requires ahead != []
    ensures Pending(mappings, ors, ands, Push(c, ahead)) == Pending(mappings, ors, ands + ClauseLeaf(mappings, c), ahead)
  {
    assert Push(c, ahead)[1..] == ahead[1..];
    assert ([c] + ahead[0])[1..] == ahead[0];
    var a, b := ClauseLeaf(mappings, c), Leaves(mappings, ahead[0]);
    assert ands + (a + b) == (ands + a) + b;
  }

  lemma PendingAtEnds(mappings: seq<string>, ors: seq<Cond>, ands: seq<Cond>, gs: seq<seq<Clause>>)
    requires gs != []
    ensures Pending(mappings, [], [], gs) == Disjuncts(mappings, gs)
    ensures Pending(mappings, ors, ands, [[]]) == ors + Conjunction(ands)
  {
    assert [] + Leaves(mappings, gs[0]) == Leaves(mappings, gs[0]);
    assert ands + [] == ands;
  }

  /** `build_filter_condition` on the token list. */
  method BuildCondition(tokens: seq<string>, mappings: seq<string>) returns (cond: Option<Cond>)
    ensures cond == Disjunction(Disjuncts(mappings, Groups(tokens)))
  {
    var i := 0;
    var ors: seq<Cond> := [];
    var ands: seq<Cond> := [];
    assert tokens[0..] == tokens;
    PendingAtEnds(mappings, ors, ands, Groups(tokens));
    while i < |tokens|
      invariant 0 <= i <= |tokens|
      invariant Pending(mappings, ors, ands, GroupsFrom(tokens, i)) == Disjuncts(mappings, Groups(tokens))
    {
      ScanStep(tokens, i);
      var token := tokens[i];
      if token == "&" {
        i := i + 1;
      } else if token == "|" {
        PendingBar(mappings, ors, ands, GroupsFrom(tokens, i + 1));
        assert ors + [] == ors;
        if ands != [] {
          ors := ors + [All(ands)];
          ands := [];
        }
        i := i + 1;
      } else if Keyed(token) {
        var leaf, j := ScanClause(tokens, i, mappings);
        PendingClause(mappings, ors, ands, MakeClause(token, tokens[i + 1..j]), GroupsFrom(tokens, j));
        ands := ands + leaf;
        i := j;
      } else {
        i := i + 1;
      }
    }
    GroupsOfNothing();
    assert tokens[i..] == [];
    PendingAtEnds(mappings, ors, ands, Groups(tokens));
    assert ors + [] == ors;
    if ands != [] {
      ors := ors + [All(ands)];
    }
    assert ors == Disjuncts(mappings, Groups(tokens));
    if ors == [] {
      return None;
    }
    return Some(Any(ors));
  }

  // ---------------------------------------------------------------- from the filter text

  /** The Unicode White_Space characters. */
  predicate Space(c: char) {
    var n := c as int;
    0x9 <= n <= 0xd || n == 0x20 || n == 0x85 || n == 0xa0 || n == 0x1680 || 0x2000 <= n <= 0x200a ||
    n == 0x2028 || n == 0x2029 || n == 0x202f || n == 0x205f || n == 0x3000
  }

  predicate Spaceless(w: string) {
    forall i :: 0 <= i < |w| ==> !Space(w[i])
  }

  function WordLength(s: string): (n: nat)
    ensures n <= |s| && (forall i :: 0 <= i < n ==> !Space(s[i])) && (n < |s| ==> Space(s[n]))
  {
    if s == "" || Space(s[0]) then 0 else 1 + WordLength(s[1..])
  }

  /** `split_whitespace`. */
  function Words(s: string): (ws: seq<string>)
    ensures forall i :: 0 <= i < |ws| ==> ws[i] != "" && Spaceless(ws[i])
    decreases |s|
  {
    if s == "" then []
    else if Space(s[0]) then Words(s[1..])
    else var n := WordLength(s); [s[..n]] + Words(s[n..])
  }

  /** `build_filter_condition`. */
  method BuildFilterCondition(filter: Option<string>, mappings: seq<string>) returns (cond: Option<Cond>)
    ensures cond == MainCondition(filter, mappings)
  {
    if filter == None {
      return None;
    }
    cond := BuildCondition(Words(filter.value), mappings);
  }

  function MainCondition(filter: Option<string>, mappings: seq<string>): Option<Cond> {
    if filter == None then None else Disjunction(Disjuncts(mappings, Groups(Words(filter.value))))
  }

  /** The condition a filter yields selects exactly the rows that some group selects. */
  lemma FilterMeaning(filter: string, mappings: seq<string>, truth: (nat, string) -> bool)
    ensures var gs := Groups(Words(filter));
            match MainCondition(Some(filter), mappings)
            case None => forall g, c :: g in gs && c in g ==> !Known(mappings, c)
            case Some(cond) =>
              && (exists g, c :: g in gs && c in g && Known(mappings, c))
              && (Holds(cond, truth) <==> exists g :: g in gs && Selects(mappings, g, truth))
  {
    DisjunctsMeaning(mappings, Groups(Words(filter)), truth);
  }

  // ---------------------------------------------------------------- the cross-table scanner

  function Flatten(gs: seq<seq<Clause>>): seq<Clause> {
    if gs == [] then [] else gs[0] + Flatten(gs[1..])
  }

  /** The conditions of all known clauses, group structure forgotten. */
  function Collected(mappings: seq<string>, gs: seq<seq<Clause>>): seq<Cond> {
    Leaves(mappings, Flatten(gs))
  }

  lemma CollectedPush(mappings: seq<string>, done: seq<Cond>, c: Clause, gs: seq<seq<Clause>>)
    requires gs != []
    ensures done + Collected(mappings, Push(c, gs)) == (done + ClauseLeaf(mappings, c)) + Collected(mappings, gs)
  {
    assert Push(c, gs)[1..] == gs[1..];
    assert Flatten(Push(c, gs)) == [c] + Flatten(gs);
    assert ([c] + Flatten(gs))[1..] == Flatten(gs);
  }

  lemma CollectedBar(mappings: seq<string>, gs: seq<seq<Clause>>)
    ensures Collected(mappings, [[]] + gs) == Collected(mappings, gs)
    ensures Collected(mappings, [[]]) == []
  {
    assert ([[]] + gs)[1..] == gs;
    assert [] + Flatten(gs) == Flatten(gs);
    assert Flatten([[]]) == [];
  }

  function CrossCondition(filter: Option<string>, mappings: seq<string>): Option<Cond> {
    if filter == None || filter.value == "" then None
    else
      var leaves := Collected(mappings, Groups(Words(filter.value)));
      if leaves == [] then None else Some(All(leaves))
  }

  lemma CrossSkip(mappings: seq<string>, tokens: seq<string>, i: nat)
    requires i < |tokens| && (Operator(tokens[i]) || !Keyed(tokens[i]))
    ensures Collected(mappings, GroupsFrom(tokens, i)) == Collected(mappings, GroupsFrom(tokens, i + 1))
  {
    ScanStep(tokens, i);
    CollectedBar(mappings, GroupsFrom(tokens, i + 1));
  }

  lemma CrossTake(mappings: seq<string>, tokens: seq<string>, i: nat, done: seq<Cond>)
    requires i < |tokens| && !Operator(tokens[i]) && Keyed(tokens[i])
    ensures done + Collected(mappings, GroupsFrom(tokens, i)) ==
            (done + LeafAt(mappings, tokens, i)) + Collected(mappings, GroupsFrom(tokens, RunEnd(tokens, i + 1)))
  {
    var j := RunEnd(tokens, i + 1);
    ScanStep(tokens, i);
    CollectedPush(mappings, done, MakeClause(tokens[i], tokens[i + 1..j]), GroupsFrom(tokens, j));
  }

  /** The loop of `resolve_cross_filters`: operators only separate. */
  method CollectConditions(tokens: seq<string>, mappings: seq<string>) returns (conditions: seq<Cond>)
    ensures conditions == Collected(mappings, Groups(tokens))
  {
    conditions := [];
    var i := 0;
    ghost var all := Collected(mappings, Groups(tokens));
    assert tokens[0..] == tokens;
    assert [] + all == all;
    while i < |tokens|
      invariant 0 <= i <= |tokens|
      invariant conditions + Collected(mappings, GroupsFrom(tokens, i)) == all
    {
      var token := tokens[i];
      if Operator(token) || !Keyed(token) {
        CrossSkip(mappings, tokens, i);
        i := i + 1;
      } else {
        var leaf, j := ScanClause(tokens, i, mappings);
        CrossTake(mappings, tokens, i, conditions);
        conditions := conditions + leaf;
        i := j;
      }
    }
    GroupsOfNothing();
    assert tokens[|tokens|..] == [];
    CollectedBar(mappings, []);
    assert conditions + [] == conditions;
  }

  /** The scanning part of `resolve_cross_filters`: one conjunction. */
  method ResolveCrossFilters(filter: Option<string>, mappings: seq<string>) returns (cond: Option<Cond>)
    ensures cond == CrossCondition(filter, mappings)
  {
    if filter == None || filter.value == "" {
      return None;
    }
    var conditions := CollectConditions(Words(filter.value), mappings);
    if conditions == [] {
      return None;
    }
    return Some(All(conditions));
  }

  lemma {:induction false} FlattenMembers(gs: seq<seq<Clause>>, c: Clause)
    ensures c in Flatten(gs) <==> exists g :: g in gs && c in g
  {
    if gs != [] {
      FlattenMembers(gs[1..], c);
      assert forall g :: g in gs <==> g == gs[0] || g in gs[1..];
    }
  }

  lemma AgreeOnGroups(mappings: seq<string>, gs: seq<seq<Clause>>, truth: (nat, string) -> bool)
    requires gs != []
    ensures Disjuncts(mappings, gs) == [] <==> Collected(mappings, gs) == []
    ensures Collected(mappings, gs) != [] && Holds(All(Collected(mappings, gs)), truth) ==> Holds(Any(Disjuncts(mappings, gs)), truth)
    ensures |gs| == 1 && Holds(Any(Disjuncts(mappings, gs)), truth) ==> Holds(All(Collected(mappings, gs)), truth)
  {
    forall c ensures c in Flatten(gs) <==> exists g :: g in gs && c in g {
      FlattenMembers(gs, c);
    }
    DisjunctsMeaning(mappings, gs, truth);
    LeavesMeaning(mappings, Flatten(gs), truth);
  }

  /**
   The two scanners: a condition is present in both or in neither; the cross-table one
   implies the main one, and without a `|` token they are equivalent.
   */
  lemma ScannersAgree(filter: Option<string>, mappings: seq<string>, truth: (nat, string) -> bool)
    ensures MainCondition(filter, mappings).Some? <==> CrossCondition(filter, mappings).Some?
    ensures var main, cross := MainCondition(filter, mappings), CrossCondition(filter, mappings);
            main.Some? ==>
              && (Holds(cross.value, truth) ==> Holds(main.value, truth))
              && ("|" !in Words(filter.value) ==> (Holds(cross.value, truth) <==> Holds(main.value, truth)))
  {
    if filter.Some? {
      AgreeOnGroups(mappings, Groups(Words(filter.value)), truth);
      if filter.value == "" {
        GroupsOfNothing();
        CollectedBar(mappings, []);
      }
      if "|" !in Words(filter.value) {
        var tokens := Words(filter.value);
        assert tokens + [] == tokens;
        SplitRun(tokens, [], "|");
        assert |Groups(tokens)| == 1;
      }
    }
  }

  // ---------------------------------------------------------------- printing

  /** A clause as a user writes it: a key, what follows the colon, and the further words of its value. */
  datatype Written = Written(key: string, first: string, more: seq<string>)

  predicate WellWritten(c: Written) {
    && Spaceless(c.key) && ':' !in c.key && Spaceless(c.first)
    && forall i :: 0 <= i < |c.more| ==> c.more[i] != "" && Spaceless(c.more[i]) && !Operator(c.more[i])
  }

  function Read(c: Written): Clause {
    Clause(c.key, Spaced([c.first] + c.more))
  }

  function PrintClause(c: Written): seq<string> {
    [c.key + ":" + c.first] + c.more
  }

  ghost predicate WellGroup(g: seq<Written>) {
    forall i :: 0 <= i < |g| ==> WellWritten(g[i])
  }

  function PrintGroup(g: seq<Written>): seq<string> {
    if g == [] then []
    else PrintClause(g[0]) + (if |g| == 1 then [] else ["&"] + PrintGroup(g[1..]))
  }

  function ReadGroup(g: seq<Written>): seq<Clause> {
    if g == [] then [] else [Read(g[0])] + ReadGroup(g[1..])
  }

  ghost predicate WellFilter(gs: seq<seq<Written>>) {
    gs != [] && forall i :: 0 <= i < |gs| ==> WellGroup(gs[i])
  }

  function PrintFilter(gs: seq<seq<Written>>): seq<string> {
    if gs == [] then [] else PrintGroup(gs[0]) + (if |gs| == 1 then [] else ["|"] + PrintFilter(gs[1..]))
  }

  function ReadFilter(gs: seq<seq<Written>>): seq<seq<Clause>> {
    if gs == [] then [] else [ReadGroup(gs[0])] + ReadFilter(gs[1..])
  }

  /** Tokens written with single spaces in between. */
  function Spaced(tokens: seq<string>): string {
    if tokens == [] then ""
    else if |tokens| == 1 then tokens[0]
    else tokens[0] + " " + Spaced(tokens[1..])
  }

  /** The scanned value is the words after the colon, as written with single spaces. */
  lemma {:induction false} JoinedIsSpaced(v: string, words: seq<string>)
    ensures Joined(v, words) == Spaced([v] + words)
    decreases |words|
  {
    if words == [] {
      assert [v] + words == [v];
    } else {
      var w := words[0];
      JoinedIsSpaced(v + " " + w, words[1..]);
      assert ([v] + words)[1..] == words == [w] + words[1..];
      if |words| == 1 {
        assert words[1..] == [] && [v + " " + w] + [] == [v + " " + w] && words == [w];
      } else {
        assert ([v + " " + w] + words[1..])[1..] == words[1..];
        assert v + " " + w + " " + Spaced(words[1..]) == v + " " + (w + " " + Spaced(words[1..]));
      }
    }
  }

  lemma ReadToken(c: Written)
    requires WellWritten(c)
    ensures var token := c.key + ":" + c.first;
            && !Operator(token) && Keyed(token) && token != "" && Spaceless(token)
            && MakeClause(token, c.more) == Read(c)
  {
    var token := c.key + ":" + c.first;
    assert token[|c.key|] == ':';
    assert forall i :: 0 <= i < |c.key| ==> token[i] == c.key[i];
    assert Colon(token) == |c.key|;
    assert token[..|c.key|] == c.key && token[|c.key| + 1..] == c.first;
    JoinedIsSpaced(c.first, c.more);
  }

  lemma FirstGroupEmpty(rest: seq<string>)
    requires rest == [] || rest[0] == "|"
    ensures Groups(rest) == [[]] + Groups(rest)[1..]
  {
    if rest == [] {
      GroupsOfNothing();
    } else {
      GroupsBar(rest[1..]);
      assert rest == ["|"] + rest[1..];
    }
  }

  /** One printed clause in front of tokens whose clauses are known. */
  lemma ClauseInFront(c: Written, after: seq<string>, first: seq<Clause>, others: seq<seq<Clause>>)
    requires WellWritten(c) && (after == [] || Operator(after[0]))
    requires Groups(after) == [first] + others
    ensures Groups(PrintClause(c) + after) == [[Read(c)] + first] + others
  {
    ReadToken(c);
    GroupsKeyed(c.key + ":" + c.first, c.more, after);
    assert ([first] + others)[1..] == others;
  }

  lemma PrintMore(g: seq<Written>, rest: seq<string>)
    requires |g| > 1
    ensures PrintGroup(g) + rest == PrintClause(g[0]) + (["&"] + (PrintGroup(g[1..]) + rest))
  {
  }

  lemma {:induction false} GroupRoundTrip(g: seq<Written>, rest: seq<string>)
    requires WellGroup(g) && (rest == [] || rest[0] == "|")
    ensures Groups(PrintGroup(g) + rest) == [ReadGroup(g)] + Groups(rest)[1..]
    decreases |g|
  {
    var others := Groups(rest)[1..];
    FirstGroupEmpty(rest);
    if g == [] {
      assert PrintGroup(g) + rest == rest;
    } else if |g| == 1 {
      ClauseInFront(g[0], rest, [], others);
      assert PrintGroup(g) + rest == PrintClause(g[0]) + rest;
      assert ReadGroup(g[1..]) == [];
    } else {
      var tail := PrintGroup(g[1..]) + rest;
      GroupRoundTrip(g[1..], rest);
      GroupsAmp(tail);
      ClauseInFront(g[0], ["&"] + tail, ReadGroup(g[1..]), others);
      PrintMore(g, rest);
    }
  }

  /** Printing an OR of ANDs and scanning the tokens gives the same clauses in the same groups. */
  lemma {:induction false} FilterRoundTrip(gs: seq<seq<Written>>)
    requires WellFilter(gs)
    ensures Groups(PrintFilter(gs)) == ReadFilter(gs)
    decreases |gs|
  {
    if |gs| == 1 {
      GroupRoundTrip(gs[0], []);
      GroupsOfNothing();
      assert PrintGroup(gs[0]) + [] == PrintGroup(gs[0]);
      assert ReadFilter(gs[1..]) == [];
    } else {
      var rest := PrintFilter(gs[1..]);
      FilterRoundTrip(gs[1..]);
      GroupRoundTrip(gs[0], ["|"] + rest);
      GroupsBar(rest);
      assert ([[]] + Groups(rest))[1..] == Groups(rest);
    }
  }

  lemma WordsFirst(w: string, rest: string)
    requires w != "" && Spaceless(w) && (rest == "" || Space(rest[0]))
    ensures Words(w + rest) == [w] + Words(rest)
  {
    var s := w + rest;
    assert forall i :: 0 <= i < |w| ==> s[i] == w[i];
    assert |w| < |s| ==> s[|w|] == rest[0];
    assert WordLength(s) == |w|;
    assert s[..|w|] == w && s[|w|..] == rest;
  }

  lemma {:induction false} WordsOfSpaced(tokens: seq<string>)
    requires forall i :: 0 <= i < |tokens| ==> tokens[i] != "" && Spaceless(tokens[i])
    ensures Words(Spaced(tokens)) == tokens
  {
    if |tokens| == 1 {
      WordsFirst(tokens[0], "");
      assert tokens[0] + "" == tokens[0];
    } else if tokens != [] {
      var rest := Spaced(tokens[1..]);
      WordsOfSpaced(tokens[1..]);
      WordsFirst(tokens[0], " " + rest);
      assert tokens[0] + " " + rest == tokens[0] + (" " + rest);
      assert (" " + rest)[1..] == rest;
    }
  }

  /** Any white space ends a word, and is itself passed over. */
  lemma WordsAnySpace(w: string, c: char, rest: string)
    requires Spaceless(w) && Space(c)
    ensures Words(w + [c] + rest) == (if w == "" then [] else [w]) + Words(rest)
  {
    var v := [c] + rest;
    assert v[0] == c && v[1..] == rest;
    assert Words(v) == Words(rest);
    assert w + [c] + rest == w + v;
    if w == "" {
      assert w + v == v;
    } else {
      WordsFirst(w, v);
    }
  }

  ghost predicate Printable(tokens: seq<string>) {
    forall i :: 0 <= i < |tokens| ==> tokens[i] != "" && Spaceless(tokens[i])
  }

  lemma {:induction false} PrintedGroupIsPrintable(g: seq<Written>)
    requires WellGroup(g)
    ensures Printable(PrintGroup(g))
    decreases |g|
  {
    if g != [] {
      ReadToken(g[0]);
      if |g| > 1 {
        PrintedGroupIsPrintable(g[1..]);
      }
    }
  }

  lemma {:induction false} PrintedFilterIsPrintable(gs: seq<seq<Written>>)
    requires WellFilter(gs)
    ensures Printable(PrintFilter(gs))
    decreases |gs|
  {
    PrintedGroupIsPrintable(gs[0]);
    if |gs| > 1 {
      PrintedFilterIsPrintable(gs[1..]);
    }
  }

  /** The round trip through the filter text itself. */
  lemma TextRoundTrip(gs: seq<seq<Written>>)
    requires WellFilter(gs)
    ensures Groups(Words(Spaced(PrintFilter(gs)))) == ReadFilter(gs)
  {
    PrintedFilterIsPrintable(gs);
    WordsOfSpaced(PrintFilter(gs));
    FilterRoundTrip(gs);
  }
}
