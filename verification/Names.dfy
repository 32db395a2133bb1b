/** The names the operator publishes under: DNS labels, pool names, and numbered slice and device names.
  *
  * The hash that keeps a shortened label apart is an uninterpreted function to ten hex digits. */
module Names {
  import opened Text
  import opened Wrappers

  const MAX_LABEL: nat := 63

  predicate IsHex(c: char) { IsDigit(c) || 'a' <= c <= 'f' }

  type Hash = s: string | |s| == 10 && forall c :: c in s ==> IsHex(c) witness "0000000000"

  type Hasher = string -> Hash

  predicate IsLabelChar(c: char) { 'a' <= c <= 'z' || IsDigit(c) || c == '-' }

  /** Each run of characters a label cannot hold becomes one dash. */
  function ReplaceRuns(s: string, inRun: bool): string {
    if s == "" then ""
    else if IsLabelChar(s[0]) then [s[0]] + ReplaceRuns(s[1..], false)
    else (if inRun then "" else "-") + ReplaceRuns(s[1..], true)
  }

  function TrimLeftDashes(s: string): string { if s != "" && s[0] == '-' then TrimLeftDashes(s[1..]) else s }

  function TrimRightDashes(s: string): string {
    if s != "" && s[|s| - 1] == '-' then TrimRightDashes(s[..|s| - 1]) else s
  }

  function TrimDashSuffix(s: string): string { if s != "" && s[|s| - 1] == '-' then s[..|s| - 1] else s }

  /** Shorten a label to max characters, its tail replaced by a hash of the whole. The program would panic
    * for a max under 11, but no number an int64 holds is long enough to leave so little. */
  function TruncateLabel(hash: Hasher, base: string, max: int): string {
    if |base| <= max then base
    else TrimDashSuffix(if max > 11 then base[..max - 11] else "") + "-" + hash(base)
  }

  function DnsLabel(hash: Hasher, value: string): string {
    var base := TrimRightDashes(TrimLeftDashes(ReplaceRuns(Lower(TrimSpace(value)), false)));
    if base == "" then "unknown" else TruncateLabel(hash, base, MAX_LABEL)
  }

  /** A well-formed DNS label. */
  predicate IsLabel(s: string) {
    && 0 < |s| <= MAX_LABEL && s[0] != '-' && s[|s| - 1] != '-'
    && forall c :: c in s ==> IsLabelChar(c)
  }

  lemma {:induction false} ReplaceRunsIsClean(s: string, inRun: bool)
    ensures forall c :: c in ReplaceRuns(s, inRun) ==> IsLabelChar(c)
  {
    if s != "" { ReplaceRunsIsClean(s[1..], !IsLabelChar(s[0])); }
  }

  lemma {:induction false} TrimLeftDashesKeeps(s: string)
    ensures var t := TrimLeftDashes(s); (forall c :: c in t ==> c in s) && (t != "" ==> t[0] != '-')
  {
    if s != "" && s[0] == '-' { TrimLeftDashesKeeps(s[1..]); }
  }

  lemma {:induction false} TrimRightDashesKeeps(s: string)
    ensures var t := TrimRightDashes(s); t <= s && (t != "" ==> t[|t| - 1] != '-')
  {
    if s != "" && s[|s| - 1] == '-' { TrimRightDashesKeeps(s[..|s| - 1]); }
  }

  lemma DnsLabelIsLabel(hash: Hasher, value: string)
    ensures IsLabel(DnsLabel(hash, value))
  {
    var clean := ReplaceRuns(Lower(TrimSpace(value)), false);
    ReplaceRunsIsClean(Lower(TrimSpace(value)), false);
    TrimLeftDashesKeeps(clean);
    TrimRightDashesKeeps(TrimLeftDashes(clean));
    var base := TrimRightDashes(TrimLeftDashes(clean));
    assert forall c :: c in base ==> c in TrimLeftDashes(clean);
    if base != "" {
      assert base[0] != '-';
      TruncatedIsLabel(hash, base, MAX_LABEL);
    }
  }

  lemma TruncatedIsLabel(hash: Hasher, base: string, max: int)
    requires 11 < max <= MAX_LABEL
    requires base != "" && base[0] != '-' && base[|base| - 1] != '-' && forall c :: c in base ==> IsLabelChar(c)
    ensures IsLabel(TruncateLabel(hash, base, max)) && |TruncateLabel(hash, base, max)| <= max
  {
    if |base| > max {
      var tail: string := hash(base);
      assert forall c :: c in tail ==> IsHex(c);
      assert tail[9] in tail;
      var head := TrimDashSuffix(base[..max - 11]);
      assert head <= base && head != "" && head[0] == base[0];
    }
  }

  lemma {:induction false} LabelCharsStay(s: string)
    requires forall c :: c in s ==> IsLabelChar(c)
    ensures ReplaceRuns(s, false) == s
  {
    if s != "" { LabelCharsStay(s[1..]); }
  }

  /** Exactly the well-formed labels are fixed points; so labelling twice is labelling once. */
  lemma FixedPointsAreLabels(hash: Hasher, value: string)
    ensures DnsLabel(hash, value) == value <==> IsLabel(value)
    ensures DnsLabel(hash, DnsLabel(hash, value)) == DnsLabel(hash, value)
  {
    DnsLabelIsLabel(hash, value);
    if IsLabel(value) { LabelStays(hash, value); }
    LabelStays(hash, DnsLabel(hash, value));
  }

  lemma LabelStays(hash: Hasher, s: string)
    requires IsLabel(s)
    ensures DnsLabel(hash, s) == s
  {
    assert s[0] in s && s[|s| - 1] in s;
    NothingToTrim(s);
    LabelCharsAreLower(s);
    LabelCharsStay(s);
  }

  lemma LabelCharsAreLower(s: string)
    requires forall c :: c in s ==> IsLabelChar(c)
    ensures Lower(s) == s
  {
    forall i | 0 <= i < |s| ensures LowerChar(s[i]) == s[i] { assert s[i] in s; }
  }

  lemma {:induction false} RunsConcat(a: string, b: string, inRun: bool)
    requires a != ""
    ensures ReplaceRuns(a + b, inRun) == ReplaceRuns(a, inRun) + ReplaceRuns(b, !IsLabelChar(a[|a| - 1]))
    decreases |a|
  {
    assert (a + b)[0] == a[0] && (a + b)[1..] == a[1..] + b;
    if |a| == 1 {
      assert a[1..] == "" && a[1..] + b == b;
    } else {
      RunsConcat(a[1..], b, !IsLabelChar(a[0]));
    }
  }

  lemma {:induction false} GapIsOneDash(gap: string)
    requires forall c :: c in gap ==> !IsLabelChar(c)
    ensures gap != "" ==> ReplaceRuns(gap, false) == "-"
    ensures ReplaceRuns(gap, true) == ""
  {
    if gap != "" {
      assert gap[0] in gap;
      GapIsOneDash(gap[1..]);
    }
  }

  /** What stands between two labels, if a label cannot hold it, becomes one dash; the case of letters is lost. */
  lemma GapsBecomeDashes(hash: Hasher, a: string, gap: string, b: string, value: string)
    requires IsLabel(a) && IsLabel(b) && gap != "" && forall c :: c in gap ==> !IsLabelChar(LowerChar(c))
    requires Lower(value) == a + Lower(gap) + b && |a| + 1 + |b| <= MAX_LABEL
    ensures DnsLabel(hash, value) == a + "-" + b
  {
    forall c | c in Lower(gap) ensures !IsLabelChar(c) {
      var i :| 0 <= i < |gap| && Lower(gap)[i] == c;
      assert gap[i] in gap;
    }
    LabelEndsStay(a, Lower(gap), b, value);
    GapInRuns(a, Lower(gap), b);
    assert (a + "-" + b)[0] == a[0] && (a + "-" + b)[|a + "-" + b| - 1] == b[|b| - 1];
  }

  lemma GapInRuns(a: string, gap: string, b: string)
    requires IsLabel(a) && IsLabel(b) && gap != "" && forall c :: c in gap ==> !IsLabelChar(c)
    ensures ReplaceRuns(a + gap + b, false) == a + "-" + b
  {
    RunsConcat(a + gap, b, false);
    RunsConcat(a, gap, false);
    LabelCharsStay(a);
    LabelCharsStay(b);
    GapIsOneDash(gap);
    assert (a + gap)[|a + gap| - 1] in gap && a[|a| - 1] in a && b[0] in b;
    RunsAfter(b);
  }

  /** Nothing is trimmed off a value that begins and ends like a label. */
  lemma LabelEndsStay(a: string, gap: string, b: string, value: string)
    requires IsLabel(a) && IsLabel(b) && Lower(value) == a + gap + b
    ensures TrimSpace(value) == value
  {
    var n := |value| - 1;
    assert |Lower(value)| == |value|;
    assert a[0] in a && b[|b| - 1] in b;
    assert LowerChar(value[0]) == Lower(value)[0] == a[0];
    assert LowerChar(value[n]) == Lower(value)[n] == b[|b| - 1];
    NothingToTrim(value);
  }

  lemma RunsAfter(s: string)
    requires s != "" && IsLabelChar(s[0])
    ensures ReplaceRuns(s, true) == ReplaceRuns(s, false)
  {
  }

  /** Labels that were cut differ if their hashes do. */
  lemma CutLabelsTellHashes(hash: Hasher, a: string, b: string, max: int)
    requires |a| > max && |b| > max && TruncateLabel(hash, a, max) == TruncateLabel(hash, b, max)
    ensures hash(a) == hash(b)
  {
    var s, t := TruncateLabel(hash, a, max), TruncateLabel(hash, b, max);
    assert s[|s| - 10..] == hash(a) && t[|t| - 10..] == hash(b);
  }

  // ---------------------------------------------------------------- pool names

  function PoolName(hash: Hasher, zone: string, gpuType: string): string {
    DnsLabel(hash, zone) + "/" + DnsLabel(hash, gpuType)
  }

  /** strings.Split on '/'. */
  function Split(s: string): (parts: seq<string>)
    ensures parts != []
  {
    if s == "" then [""]
    else if s[0] == '/' then [""] + Split(s[1..])
    else
      var rest := Split(s[1..]);
      [[s[0]] + rest[0]] + rest[1..]
  }

  lemma {:induction false} SplitJoined(a: string, b: string)
    requires '/' !in a && '/' !in b
    ensures Split(a) == [a] && Split(a + "/" + b) == [a, b]
    decreases |a|
  {
    if a == "" {
      assert a + "/" + b == "/" + b;
      SplitPlain(b);
    } else {
      assert (a + "/" + b)[1..] == a[1..] + "/" + b;
      SplitJoined(a[1..], b);
      assert a == [a[0]] + a[1..];
    }
  }

  lemma {:induction false} SplitPlain(s: string)
    requires '/' !in s
    ensures Split(s) == [s]
  {
    if s != "" {
      SplitPlain(s[1..]);
      assert s == [s[0]] + s[1..];
    }
  }

  datatype PoolKey = PoolKey(zone: string, gpuType: string)

  function KeyOfPool(pool: string): Option<PoolKey> {
    var parts := Split(pool);
    if |parts| != 2 || parts[0] == "" || parts[1] == "" then None else Some(PoolKey(parts[0], parts[1]))
  }

  /** A pool's name is its zone, a slash and its type, neither of them empty or with a slash of its own. */
  predicate IsNameOf(pool: string, key: PoolKey) {
    && key.zone != "" && key.gpuType != "" && '/' !in key.zone && '/' !in key.gpuType
    && pool == key.zone + "/" + key.gpuType
  }

  /** Exactly such names are recognised. */
  lemma KeysAreRead(pool: string, key: PoolKey)
    ensures KeyOfPool(pool) == Some(key) <==> IsNameOf(pool, key)
  {
    if IsNameOf(pool, key) {
      SplitJoined(key.zone, key.gpuType);
    } else if KeyOfPool(pool) == Some(key) {
      SplitJoins(pool);
    }
  }

  /** With the slashes put back the parts are the whole. */
  lemma {:induction false} SplitJoins(s: string)
    ensures forall i :: 0 <= i < |Split(s)| ==> '/' !in Split(s)[i]
    ensures |Split(s)| == 1 ==> Split(s)[0] == s
    ensures |Split(s)| == 2 ==> Split(s)[0] + "/" + Split(s)[1] == s
  {
    if s != "" {
      SplitJoins(s[1..]);
      assert s == [s[0]] + s[1..];
      if s[0] == '/' && |Split(s)| == 2 { assert Split(s)[1] == s[1..]; }
    }
  }

  function Labelled(hash: Hasher, key: PoolKey): PoolKey {
    PoolKey(DnsLabel(hash, key.zone), DnsLabel(hash, key.gpuType))
  }

  /** A published pool is recognised again, under its labelled key. */
  lemma PoolNameIsRecognised(hash: Hasher, key: PoolKey)
    ensures KeyOfPool(PoolName(hash, key.zone, key.gpuType)) == Some(Labelled(hash, key))
  {
    DnsLabelIsLabel(hash, key.zone);
    DnsLabelIsLabel(hash, key.gpuType);
    SplitJoined(DnsLabel(hash, key.zone), DnsLabel(hash, key.gpuType));
  }

  // ---------------------------------------------------------------- numbered names

  /** Enough for every index an int64 can count to. */
  const INDEX_LIMIT: nat := Power10(19)

  /** A label cut short enough for its number, and the number. */
  function NumberedName(hash: Hasher, base: string, index: nat): string {
    var suffix := "-" + Decimal(index);
    TruncateLabel(hash, base, MAX_LABEL - |suffix|) + suffix
  }

  function DeviceName(hash: Hasher, gpuType: string, index: nat): string {
    NumberedName(hash, DnsLabel(hash, gpuType), index)
  }

  function SliceName(hash: Hasher, prefix: string, zone: string, gpuType: string, shard: nat): string {
    NumberedName(hash, DnsLabel(hash, prefix + "-" + zone + "-" + gpuType), shard)
  }

  lemma DashThenDigits(a: string, d: string)
    requires AllDigits(d)
    ensures var s := a + "-" + d; s[|a|] == '-' && forall i :: |a| < i < |s| ==> IsDigit(s[i])
  {
    var s := a + "-" + d;
    forall i | |a| < i < |s| ensures IsDigit(s[i]) { assert s[i] == d[i - |a| - 1] && d[i - |a| - 1] in d; }
  }

  /** What follows the last dash can be read off again. */
  lemma LastDash(a: string, d: string, b: string, e: string)
    requires a + "-" + d == b + "-" + e && AllDigits(d) && AllDigits(e)
    ensures d == e
  {
    DashThenDigits(a, d);
    DashThenDigits(b, e);
    assert |a| == |b|;
    assert d == (a + "-" + d)[|a| + 1..] == e;
  }

  /** However long the label was, a numbered name is a valid label of at most 63 characters. */
  lemma NumberedNameIsLabel(hash: Hasher, base: string, i: nat)
    requires IsLabel(base) && i < INDEX_LIMIT
    ensures IsLabel(NumberedName(hash, base, i))
  {
    DecimalLength(i, 19);
    var digits := Decimal(i);
    var head := TruncateLabel(hash, base, MAX_LABEL - 1 - |digits|);
    TruncatedIsLabel(hash, base, MAX_LABEL - 1 - |digits|);
    WithDigitsIsLabel(head, digits);
    assert NumberedName(hash, base, i) == head + ("-" + digits);
  }

  lemma WithDigitsIsLabel(head: string, digits: string)
    requires IsLabel(head) && digits != "" && AllDigits(digits) && |head| + 1 + |digits| <= MAX_LABEL
    ensures IsLabel(head + ("-" + digits))
  {
    var s := head + ("-" + digits);
    assert digits[|digits| - 1] in digits;
    forall c | c in s ensures IsLabelChar(c) {
      assert c in head || c == '-' || c in digits;
    }
  }

  /** Where a label is cut depends on its number's length; still, different numbers give different names. */
  lemma NumberedNamesAreDistinct(hash: Hasher, base: string, i: nat, j: nat)
    requires NumberedName(hash, base, i) == NumberedName(hash, base, j)
    ensures i == j
  {
    var a := TruncateLabel(hash, base, MAX_LABEL - |"-" + Decimal(i)|);
    var b := TruncateLabel(hash, base, MAX_LABEL - |"-" + Decimal(j)|);
    assert NumberedName(hash, base, i) == a + ("-" + Decimal(i)) == a + "-" + Decimal(i);
    assert NumberedName(hash, base, j) == b + ("-" + Decimal(j)) == b + "-" + Decimal(j);
    LastDash(a, Decimal(i), b, Decimal(j));
    DecimalIsInjective(i, j);
  }
}
