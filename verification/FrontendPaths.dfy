/**
 Path safety of frontend artifacts: identifiers, versions, relative asset paths and the
 URL paths built from them, against the dot-segment removal of section 5.2.4 of RFC 3986.
 */
module FrontendPaths {
  import opened Options

  // ---------------------------------------------------------------- characters and splitting

  predicate Digit(c: char) { '0' <= c <= '9' }

  predicate Lower(c: char) { 'a' <= c <= 'z' }

  predicate Letter(c: char) { Lower(c) || 'A' <= c <= 'Z' }

  predicate SafeChar(c: char) { Letter(c) || Digit(c) || c in "._@+-" }

  /** What `String.prototype.trim` removes: white space and line terminators. */
  predicate Space(c: char) {
    var n := c as int;
    9 <= n <= 13 || n in {0x20, 0xA0, 0x1680, 0x2028, 0x2029, 0x202F, 0x205F, 0x3000, 0xFEFF} || 0x2000 <= n <= 0x200A
  }

  /** The first `c` at or after `i`, or the end. */
  function Find(s: string, c: char, i: nat): (k: nat)
    requires i <= |s|
    ensures i <= k <= |s| && (k < |s| ==> s[k] == c)
    ensures forall j :: i <= j < k ==> s[j] != c
    decreases |s| - i
  {
    if i == |s| || s[i] == c then i else Find(s, c, i + 1)
  }

  function SplitFrom(s: string, c: char, i: nat): seq<string>
    requires i <= |s|
    decreases |s| - i
  {
    var k := Find(s, c, i);
    if k == |s| then [s[i..]] else [s[i..k]] + SplitFrom(s, c, k + 1)
  }

  function Split(s: string, c: char): seq<string> {
    SplitFrom(s, c, 0)
  }

  // ---------------------------------------------------------------- identifiers and versions

  predicate IdChar(c: char) { Lower(c) || Digit(c) || c in "._-" }

  predicate IsSafeFrontendId(id: string) {
    0 < |id| <= 64 && (Lower(id[0]) || Digit(id[0])) && forall i :: 0 <= i < |id| ==> IdChar(id[i])
  }

  predicate AllDigits(s: string) { forall i :: 0 <= i < |s| ==> Digit(s[i]) }

  /** `0|[1-9]\d*` */
  predicate Numeric(s: string) { s != "" && AllDigits(s) && (s[0] == '0' ==> |s| == 1) }

  predicate TagChar(c: char) { Letter(c) || Digit(c) || c == '-' }

  /** The end of the run of digits that starts at `i`. */
  function DigitsEnd(s: string, i: nat): (k: nat)
    requires i <= |s|
    ensures i <= k <= |s| && (k < |s| ==> !Digit(s[k])) && forall j :: i <= j < k ==> Digit(s[j])
    decreases |s| - i
  {
    if i == |s| || !Digit(s[i]) then i else DigitsEnd(s, i + 1)
  }

  /** The end of the run of tag characters that starts at `i`. */
  function TagEnd(s: string, i: nat): (k: nat)
    requires i <= |s|
    ensures i <= k <= |s| && forall j :: i <= j < k ==> TagChar(s[j])
    decreases |s| - i
  {
    if i == |s| || !TagChar(s[i]) then i else TagEnd(s, i + 1)
  }

  /** Dot-separated build identifiers up to the end. */
  predicate BuildFrom(s: string, i: nat)
    requires i <= |s|
    decreases |s| - i
  {
    var k := TagEnd(s, i);
    i < k && (k == |s| || (s[k] == '.' && BuildFrom(s, k + 1)))
  }

  /** Dot-separated pre-release identifiers, numeric ones without a leading zero, and an optional build. */
  predicate PreFrom(s: string, i: nat)
    requires i <= |s|
    decreases |s| - i
  {
    var k := TagEnd(s, i);
    i < k && (s[i] == '0' && DigitsEnd(s, i) == k ==> k == i + 1) &&
    (k == |s| || (s[k] == '.' && PreFrom(s, k + 1)) || (s[k] == '+' && BuildFrom(s, k + 1)))
  }

  /** `n` dot-separated numbers without a leading zero, then the optional parts. */
  predicate CoreFrom(s: string, i: nat, n: nat)
    requires i <= |s|
    decreases |s| - i
  {
    var k := DigitsEnd(s, i);
    i < k && (s[i] == '0' ==> k == i + 1) &&
    if n > 1 then k < |s| && s[k] == '.' && CoreFrom(s, k + 1, n - 1)
    else k == |s| || (s[k] == '-' && PreFrom(s, k + 1)) || (s[k] == '+' && BuildFrom(s, k + 1))
  }

  predicate IsValidSemver(s: string) {
    CoreFrom(s, 0, 3)
  }

  predicate VersionChar(c: char) { TagChar(c) || c == '.' || c == '+' }

  predicate VersionChars(s: string, i: nat) { forall k :: i <= k < |s| ==> VersionChar(s[k]) }

  lemma {:induction false} BuildChars(s: string, i: nat)
    requires i <= |s| && BuildFrom(s, i)
    ensures VersionChars(s, i)
    decreases |s| - i
  {
    var k := TagEnd(s, i);
    if k < |s| {
      BuildChars(s, k + 1);
    }
  }

  lemma {:induction false} PreChars(s: string, i: nat)
    requires i <= |s| && PreFrom(s, i)
    ensures VersionChars(s, i)
    decreases |s| - i
  {
    var k := TagEnd(s, i);
    if k < |s| {
      if s[k] == '.' {
        PreChars(s, k + 1);
      } else {
        BuildChars(s, k + 1);
      }
    }
  }

  lemma {:induction false} CoreChars(s: string, i: nat, n: nat)
    requires i <= |s| && CoreFrom(s, i, n)
    ensures i < |s| && Digit(s[i]) && VersionChars(s, i)
    decreases |s| - i
  {
    var k := DigitsEnd(s, i);
    if n > 1 {
      CoreChars(s, k + 1, n - 1);
    } else if k < |s| {
      if s[k] == '-' {
        PreChars(s, k + 1);
      } else {
        BuildChars(s, k + 1);
      }
    }
  }

  /** A version is one clean URL segment: it starts with a digit and holds no slash. */
  lemma SemverIsSegment(s: string)
    requires IsValidSemver(s)
    ensures s != "" && Digit(s[0]) && VersionChars(s, 0)
  {
    CoreChars(s, 0, 3);
  }

  // ---------------------------------------------------------------- relative asset paths

  datatype Reason =
    | NotAString | Empty | TooLong | SurroundingSpace | ControlCharacter | Backslash | Scheme | NotRelative
    | EmptySegment | DotSegment | Unsupported(segment: string)

  predicate Control(c: char) { c as int <= 0x1f || c as int == 0x7f }

  predicate SchemeChar(c: char) { Letter(c) || Digit(c) || c in "+.-" }

  /** `^[a-zA-Z][a-zA-Z0-9+.-]*:` */
  predicate HasScheme(s: string) {
    s != "" && Letter(s[0]) && exists k :: 0 < k < |s| && s[k] == ':' && forall j :: 1 <= j < k ==> SchemeChar(s[j])
  }

  function CheckSegment(s: string): Option<Reason> {
    if s == "" then Some(EmptySegment)
    else if s == "." || s == ".." then Some(DotSegment)
    else if exists i :: 0 <= i < |s| && !SafeChar(s[i]) then Some(Unsupported(s))
    else None
  }

  /** The first complaint about a list of segments. */
  function CheckSegments(segments: seq<string>): Option<Reason> {
    if segments == [] then None
    else
      var first := CheckSegment(segments[0]);
      if first.Some? then first else CheckSegments(segments[1..])
  }

  /** `checkRelativeAssetPath` on a string: the reason of the refusal, or `None` for a good path. */
  function CheckRelativeAssetPath(v: string): Option<Reason> {
    if |v| == 0 then Some(Empty)
    else if |v| > 512 then Some(TooLong)
    else if Space(v[0]) || Space(v[|v| - 1]) then Some(SurroundingSpace)
    else if exists i :: 0 <= i < |v| && Control(v[i]) then Some(ControlCharacter)
    else if '\\' in v then Some(Backslash)
    else if HasScheme(v) then Some(Scheme)
    else if v[0] == '/' || v[0] == '~' then Some(NotRelative)
    else CheckSegments(Split(v, '/'))
  }

  /** The segment that starts at `k` is `.` or `..`. */
  predicate DotAt(s: string, k: nat) {
    k < |s| && (k == 0 || s[k - 1] == '/') && s[k] == '.' &&
    (k + 1 == |s| || s[k + 1] == '/' || (s[k + 1] == '.' && (k + 2 == |s| || s[k + 2] == '/')))
  }

  /** No segment is `.` or `..`. */
  predicate Clean(s: string) {
    forall k :: 0 <= k < |s| ==> !DotAt(s, k)
  }

  /** From `i` on: segments of safe characters, none empty, none `.` or `..`. */
  predicate SafeFrom(s: string, i: nat) {
    i < |s| && s[i] != '/' && s[|s| - 1] != '/' &&
    (forall k :: i <= k < |s| ==> (SafeChar(s[k]) || s[k] == '/') && !DotAt(s, k)) &&
    (forall k :: i < k < |s| ==> !(s[k - 1] == '/' && s[k] == '/'))
  }

  /** What a good path is, without splitting it. */
  predicate SafePath(v: string) {
    |v| <= 512 && SafeFrom(v, 0)
  }

  predicate SegmentOk(s: string) { CheckSegment(s) == None }

  /** One segment, read in place. */
  lemma HeadSegment(s: string, i: nat, k: nat)
    requires i <= k <= |s| && (i == 0 || s[i - 1] == '/') && k == Find(s, '/', i)
    ensures SegmentOk(s[i..k]) <==> i < k && !DotAt(s, i) && forall j :: i <= j < k ==> SafeChar(s[j])
  {
    var t := s[i..k];
    assert forall j :: 0 <= j < |t| ==> t[j] == s[i + j];
    assert forall j :: i <= j < k ==> s[j] == t[j - i];
    if i < k {
      assert DotAt(s, i) <==> t == "." || t == "..";
    }
  }

  lemma {:induction false} SegmentsSafe(s: string, i: nat)
    requires i <= |s| && (i == 0 || s[i - 1] == '/')
    ensures CheckSegments(SplitFrom(s, '/', i)) == None <==> SafeFrom(s, i)
    decreases |s| - i
  {
    var k := Find(s, '/', i);
    HeadSegment(s, i, k);
    if k < |s| {
      SegmentsSafe(s, k + 1);
      assert SplitFrom(s, '/', i)[1..] == SplitFrom(s, '/', k + 1);
      Continue(s, i, k);
    } else {
      assert s[i..] == s[i..k];
    }
  }

  lemma Continue(s: string, i: nat, k: nat)
    requires i <= k < |s| && (i == 0 || s[i - 1] == '/') && k == Find(s, '/', i)
    ensures SafeFrom(s, i) <==> i < k && !DotAt(s, i) && (forall j :: i <= j < k ==> SafeChar(s[j])) && SafeFrom(s, k + 1)
  {
    if i < k && SafeFrom(s, k + 1) {
      assert s[k - 1] != '/' && s[k + 1] != '/';
    }
    if SafeFrom(s, i) {
      assert k + 1 < |s|;
      assert !(s[k + 1 - 1] == '/' && s[k + 1] == '/');
    }
  }

  lemma SafePathChars(v: string)
    requires SafePath(v)
    ensures v != "" && SafeChar(v[0]) && SafeChar(v[|v| - 1])
    ensures forall i :: 0 <= i < |v| ==> v[i] != ':' && v[i] != '\\' && !Control(v[i])
  {
  }

  /**
   The eight refusals leave exactly the safe paths: the checks before the split refuse
   nothing that the segments would let through.
   */
  lemma CheckAcceptsSafePaths(v: string)
    ensures CheckRelativeAssetPath(v) == None <==> SafePath(v)
  {
    SegmentsSafe(v, 0);
    if SafePath(v) {
      SafePathChars(v);
    }
  }

  // ---------------------------------------------------------------- dot segments

  /** A path without its last segment and the slash before it. */
  function DropLastSegment(s: string): (r: string)
    ensures |r| <= |s|
  {
    if s == "" then "" else if s[|s| - 1] == '/' then s[..|s| - 1] else DropLastSegment(s[..|s| - 1])
  }

  /** The loop of section 5.2.4 of RFC 3986 over its input and output buffers. */
  function RemoveDots(input: string, output: string): string
    decreases |input|
  {
    if input == "" then output
    else if "../" <= input then RemoveDots(input[3..], output)
    else if "./" <= input then RemoveDots(input[2..], output)
    else if "/./" <= input then RemoveDots(input[2..], output)
    else if input == "/." then RemoveDots("/", output)
    else if "/../" <= input then RemoveDots(input[3..], DropLastSegment(output))
    else if input == "/.." then RemoveDots("/", DropLastSegment(output))
    else if input == "." || input == ".." then RemoveDots("", output)
    else
      var k := Find(input, '/', 1);
      RemoveDots(input[k..], output + input[..k])
  }

  function RemoveDotSegments(s: string): string {
    RemoveDots(s, "")
  }

  /** The buffer starts with a dot segment, which one of the removal rules takes away. */
  predicate DotFirst(input: string) {
    "../" <= input || "./" <= input || "/./" <= input || input == "/." || "/../" <= input || input == "/.." ||
    input == "." || input == ".."
  }

  lemma {:induction false} RemoveDotsShrinks(input: string, output: string)
    ensures |RemoveDots(input, output)| <= |input| + |output|
    ensures DotFirst(input) ==> |RemoveDots(input, output)| < |input| + |output|
    decreases |input|
  {
    if input == "" {
    } else if "../" <= input {
      RemoveDotsShrinks(input[3..], output);
    } else if "./" <= input || "/./" <= input {
      RemoveDotsShrinks(input[2..], output);
    } else if input == "/." {
      RemoveDotsShrinks("/", output);
    } else if "/../" <= input {
      RemoveDotsShrinks(input[3..], DropLastSegment(output));
    } else if input == "/.." {
      RemoveDotsShrinks("/", DropLastSegment(output));
    } else if input == "." || input == ".." {
      RemoveDotsShrinks("", output);
    } else {
      var k := Find(input, '/', 1);
      RemoveDotsShrinks(input[k..], output + input[..k]);
    }
  }

  lemma DotFirstAt(input: string)
    requires input != ""
    ensures DotFirst(input) <==> DotAt(input, 0) || (|input| > 1 && DotAt(input, 1))
  {
  }

  lemma CleanRest(s: string, k: nat)
    requires s != "" && !DotFirst(s) && k == Find(s, '/', 1)
    ensures Clean(s) <==> Clean(s[k..])
  {
    DotFirstAt(s);
    var t := s[k..];
    forall j | k <= j < |s| ensures DotAt(s, j) <==> DotAt(t, j - k) {
    }
    forall j | 0 <= j < |t| ensures DotAt(t, j) <==> DotAt(s, j + k) {
    }
  }

  /** Dot-segment removal leaves a path alone exactly when it has no `.` or `..` segment. */
  lemma {:induction false} RemoveDotsFixed(input: string, output: string)
    ensures RemoveDots(input, output) == output + input <==> Clean(input)
    decreases |input|
  {
    if input == "" {
      assert output + input == output;
    } else if DotFirst(input) {
      RemoveDotsShrinks(input, output);
      DotFirstAt(input);
    } else {
      var k := Find(input, '/', 1);
      CleanRest(input, k);
      RemoveDotsFixed(input[k..], output + input[..k]);
      assert output + input[..k] + input[k..] == output + input;
    }
  }

  lemma FixedPointIffClean(s: string)
    ensures RemoveDotSegments(s) == s <==> Clean(s)
  {
    RemoveDotsFixed(s, "");
    assert "" + s == s;
  }

  /** Joining with a slash neither makes nor hides a dot segment. */
  lemma CleanJoin(a: string, b: string)
    ensures Clean(a + "/" + b) <==> Clean(a) && Clean(b)
  {
    var s := a + "/" + b;
    assert s[|a|] == '/';
    assert forall j :: 0 <= j < |a| ==> s[j] == a[j];
    assert forall j :: |a| < j < |s| ==> s[j] == b[j - |a| - 1];
    forall k | 0 <= k < |s| ensures DotAt(s, k) <==> if k < |a| then DotAt(a, k) else k > |a| && DotAt(b, k - |a| - 1) {
    }
    if Clean(s) {
      forall k | 0 <= k < |a| ensures !DotAt(a, k) { assert !DotAt(s, k); }
      forall k | 0 <= k < |b| ensures !DotAt(b, k) { assert !DotAt(s, k + |a| + 1); }
    }
  }

  // ---------------------------------------------------------------- URL paths

  function StripEnd(s: string): (r: string)
    ensures r == "" || r[|r| - 1] != '/'
  {
    if s != "" && s[|s| - 1] == '/' then StripEnd(s[..|s| - 1]) else s
  }

  function StripStart(s: string): string {
    if s != "" && s[0] == '/' then StripStart(s[1..]) else s
  }

  function NonEmpty(parts: seq<string>): seq<string> {
    if parts == [] then [] else (if parts[0] != "" then [parts[0]] else []) + NonEmpty(parts[1..])
  }

  /** Each part after the first is preceded by a slash and loses its outer ones. */
  function Tail(parts: seq<string>): string {
    if parts == [] then "" else "/" + StripEnd(StripStart(parts[0])) + Tail(parts[1..])
  }

  /** `joinUrlPath` */
  function JoinUrlPath(parts: seq<string>): string {
    var kept := NonEmpty(parts);
    var joined := if kept == [] then "" else StripEnd(kept[0]) + Tail(kept[1..]);
    if "/" <= joined then joined else "/" + joined
  }

  /** The base as it appears in every URL. */
  function Root(base: string): string {
    var b := StripEnd(base);
    if b == "" || b[0] == '/' then b else "/" + b
  }

  predicate Bare(s: string) { s != "" && s[0] != '/' && s[|s| - 1] != '/' }

  lemma BareTwo(id: string, version: string)
    requires Bare(id) && Bare(version)
    ensures NonEmpty([id, version]) == [id, version]
    ensures Tail([version]) == "/" + version && Tail([id, version]) == "/" + id + ("/" + version)
  {
    var two, one := [id, version], [version];
    assert two[1..] == one && one[1..] == [];
    assert NonEmpty(one) == [version] + NonEmpty(one[1..]);
    assert NonEmpty(two) == [id] + NonEmpty(two[1..]);
    assert StripEnd(StripStart(id)) == id && StripEnd(StripStart(version)) == version;
    assert Tail(one) == "/" + version + "";
  }

  lemma JoinAssetBase(base: string, id: string, version: string)
    requires Bare(id) && Bare(version)
    ensures JoinUrlPath([StripEnd(base), id, version]) == Root(base) + "/" + id + "/" + version
  {
    var b := StripEnd(base);
    var parts := [b, id, version];
    assert parts[0] == b && parts[1..] == [id, version];
    BareTwo(id, version);
    if b == "" {
      JoinWithoutBase(parts, id, version);
    } else {
      assert NonEmpty(parts) == [b] + [id, version];
      JoinWithBase(parts, b, id, version);
    }
  }

  lemma JoinWithBase(parts: seq<string>, b: string, id: string, version: string)
    requires Bare(id) && Bare(version) && b != "" && b[|b| - 1] != '/' && NonEmpty(parts) == [b] + [id, version]
    ensures JoinUrlPath(parts) == (if b[0] == '/' then b else "/" + b) + "/" + id + "/" + version
  {
    BareTwo(id, version);
    assert ([b] + [id, version])[1..] == [id, version];
    var t := "/" + id + ("/" + version);
    assert (b + t)[0] == b[0];
    assert JoinUrlPath(parts) == if b[0] == '/' then b + t else "/" + (b + t);
    assert "/" + (b + t) == "/" + b + t;
    Flatten(if b[0] == '/' then b else "/" + b, id, version);
  }

  lemma JoinWithoutBase(parts: seq<string>, id: string, version: string)
    requires Bare(id) && Bare(version) && NonEmpty(parts) == [id, version]
    ensures JoinUrlPath(parts) == "" + "/" + id + "/" + version
  {
    BareTwo(id, version);
    assert [id, version][1..] == [version];
    assert "" + "/" + id + "/" + version == "/" + (id + ("/" + version));
  }

  lemma Flatten(root: string, id: string, version: string)
    ensures root + ("/" + id + ("/" + version)) == root + "/" + id + "/" + version
  {
  }

  lemma JoinEntry(asset: string, entry: string)
    requires asset != "" && asset[0] == '/' && asset[|asset| - 1] != '/' && Bare(entry)
    ensures JoinUrlPath([asset, entry]) == asset + "/" + entry
  {
    var parts := [asset, entry];
    assert parts[1..] == [entry];
    assert NonEmpty([entry]) == [entry];
    assert NonEmpty(parts) == parts;
    assert Tail([entry]) == "/" + entry;
    assert JoinUrlPath(parts) == asset + ("/" + entry);
  }

  lemma {:induction false} CleanStripEnd(s: string)
    ensures Clean(StripEnd(s)) <==> Clean(s)
  {
    if s != "" && s[|s| - 1] == '/' {
      var t := s[..|s| - 1];
      assert s == t + "/" + "";
      CleanJoin(t, "");
      CleanStripEnd(t);
    }
  }

  // ---------------------------------------------------------------- major constraints

  function TrimStart(s: string): string {
    if s != "" && Space(s[0]) then TrimStart(s[1..]) else s
  }

  function TrimEnd(s: string): string {
    if s != "" && Space(s[|s| - 1]) then TrimEnd(s[..|s| - 1]) else s
  }

  function Trim(s: string): string {
    TrimEnd(TrimStart(s))
  }

  function Decimal(s: string): nat
    requires AllDigits(s)
  {
    if s == "" then 0 else 10 * Decimal(s[..|s| - 1]) + (s[|s| - 1] as int - '0' as int)
  }

  /** `Number.parseInt(s, 10)`: white space, a sign, then as many digits as there are. */
  function ParseInt(s: string): Option<int> {
    var t := TrimStart(s);
    var start := if t != "" && (t[0] == '-' || t[0] == '+') then 1 else 0;
    var end := DigitsEnd(t, start);
    if end == start then None
    else if t[0] == '-' then Some(0 - Decimal(t[start..end]))
    else Some(Decimal(t[start..end]))
  }

  const MAX_SAFE: int := 9007199254740991

  function ParseMajorConstraint(value: string): Option<int> {
    var trimmed := Trim(value);
    if Numeric(trimmed) && Decimal(trimmed) <= MAX_SAFE then Some(Decimal(trimmed)) else None
  }

  predicate IsMajorCompatible(constraint: string, current: string) {
    var major := ParseMajorConstraint(constraint);
    major.Some? && major == ParseInt(current)
  }

  function DecimalDigit(d: nat): char
    requires d < 10
  {
    '0' + d as char
  }

  function PrintNat(n: nat): string {
    if n < 10 then [DecimalDigit(n)] else PrintNat(n / 10) + [DecimalDigit(n % 10)]
  }

  lemma {:induction false} PrintNatNumeric(n: nat)
    ensures Numeric(PrintNat(n)) && Decimal(PrintNat(n)) == n
    ensures PrintNat(n)[0] == '0' ==> n == 0
  {
    var p := PrintNat(n);
    if n >= 10 {
      PrintNatNumeric(n / 10);
      assert p[..|p| - 1] == PrintNat(n / 10);
    } else {
      assert p[..0] == "";
      assert Decimal(p[..0]) == 0;
    }
  }

  lemma PrintStep(n: nat, d: nat)
    requires d < 10
    ensures PrintNat(10 * n + d) == if n == 0 then [DecimalDigit(d)] else PrintNat(n) + [DecimalDigit(d)]
  {
  }

  lemma {:induction false} NumericUnique(s: string)
    requires Numeric(s)
    ensures PrintNat(Decimal(s)) == s
    ensures Decimal(s) == 0 ==> s == "0"
  {
    var k := |s| - 1;
    var t, c := s[..k], s[k];
    assert Digit(c) && s == t + [c];
    PrintStep(Decimal(t), c as int - '0' as int);
    if t == "" {
      assert Decimal(t) == 0;
    } else {
      assert t[0] == s[0];
      NumericUnique(t);
    }
  }

  predicate Blank(s: string) { forall i :: 0 <= i < |s| ==> Space(s[i]) }

  lemma {:induction false} TrimStartSkips(a: string, s: string)
    requires Blank(a) && (s == "" || !Space(s[0]))
    ensures TrimStart(a + s) == s
  {
    if a == "" {
      assert a + s == s;
    } else {
      assert (a + s)[1..] == a[1..] + s;
      TrimStartSkips(a[1..], s);
    }
  }

  lemma {:induction false} TrimEndSkips(s: string, b: string)
    requires Blank(b) && (s == "" || !Space(s[|s| - 1]))
    ensures TrimEnd(s + b) == s
  {
    if b == "" {
      assert s + b == s;
    } else {
      assert (s + b)[..|s + b| - 1] == s + b[..|b| - 1];
      TrimEndSkips(s, b[..|b| - 1]);
    }
  }

  /** White space around a text is taken off, and nothing else. */
  lemma TrimMeans(a: string, s: string, b: string)
    requires Blank(a) && Blank(b) && (s == "" || (!Space(s[0]) && !Space(s[|s| - 1])))
    ensures Trim(a + s + b) == s
  {
    if s == "" {
      assert a + s + b == a + b + "";
      TrimStartSkips(a + b, "");
    } else {
      assert a + s + b == a + (s + b);
      TrimStartSkips(a, s + b);
      TrimEndSkips(s, b);
    }
  }

  /** White space, the numeral of a major and anything that does not continue it: the major is read. */
  lemma ParsePrinted(a: string, n: nat, rest: string)
    requires Blank(a) && (rest == "" || !Digit(rest[0]))
    ensures ParseInt(a + PrintNat(n) + rest) == Some(n)
  {
    var p := PrintNat(n);
    var t := p + rest;
    PrintNatNumeric(n);
    assert Digit(p[0]) && t[0] == p[0];
    assert a + p + rest == a + t;
    TrimStartSkips(a, t);
    assert forall i :: 0 <= i < |p| ==> t[i] == p[i];
    assert |p| < |t| ==> t[|p|] == rest[0];
    assert DigitsEnd(t, 0) == |p|;
    assert t[0..|p|] == p;
  }

  /**
   Whatever the platform's version text, a constraint fits exactly if that text starts with a
   safe, non-negative integer and the constraint is its numeral, white space aside.
   */
  lemma CompatibleIffNumeral(constraint: string, current: string)
    ensures IsMajorCompatible(constraint, current) <==>
            var n := ParseInt(current);
            n.Some? && 0 <= n.value <= MAX_SAFE && Trim(constraint) == PrintNat(n.value)
  {
    var n := ParseInt(current);
    if Numeric(Trim(constraint)) {
      NumericUnique(Trim(constraint));
    }
    if n.Some? && n.value >= 0 {
      PrintNatNumeric(n.value);
    }
  }
}
