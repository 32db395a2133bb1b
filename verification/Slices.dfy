/** How a pool of GPUs is published as ResourceSlices, and read back from them. */
module Slices {
  import opened Sequences
  import opened Text
  import opened Wrappers
  import opened Names

  const DEVICES_PER_SLICE: nat := 128
  const APP: string := "thunder-dra-driver"
  const COMPONENT: string := "resource-inventory"
  const MANAGER: string := "thunder-device-plugin-operator"

  datatype Config = Config(driver: string, prefix: string, zoneLabelKey: string, hash: Hasher)

  /** The oversubscription target is 0.0 when it is not known. */
  datatype Definition = Definition(zone: string, gpuType: string, hostCapacity: int, clientCapacity: int,
                                   oversubscription: real, capacity: int)
  {
    function Key(): PoolKey { PoolKey(zone, gpuType) }
  }

  datatype Device = Device(name: string, gpuType: string, zone: string)

  /** The labels the operator sets, an absent one reading as "", and any others. */
  datatype Labels = Labels(app: string, component: string, manager: string, zone: string, gpuType: string,
                           hostCapacity: string, clientCapacity: string, oversubscription: string, shard: string,
                           others: map<string, string>)

  /** What the operator publishes in a slice's spec, and any field it never sets. */
  datatype Spec = Spec(driver: string, pool: string, generation: int, sliceCount: int,
                       selectorKey: string, selectorZone: string, devices: seq<Device>,
                       others: map<string, string>)

  datatype Slice = Slice(name: string, labels: Labels, spec: Spec)

  function RoundHalfEven(x: real): int {
    var down := x.Floor;
    var rest := x - down as real;
    if rest < 0.5 || (rest == 0.5 && down % 2 == 0) then down else down + 1
  }

  function TrimZeros(s: string): string { if s != "" && s[|s| - 1] == '0' then TrimZeros(s[..|s| - 1]) else s }

  /** A target in thousandths; one that is not positive counts as 1. */
  function Thousandths(target: real): (m: nat) {
    var milli := RoundHalfEven((if target <= 0.0 then 1.0 else target) * 1000.0);
    if milli < 0 then 0 else milli
  }

  function ThreeDecimals(m: nat): string {
    var tenths := m / 10 / 10;
    Decimal(tenths / 10) + "." + [Digit(tenths % 10), Digit(m / 10 % 10), Digit(m % 10)]
  }

  function TrimPoint(s: string): string { if s != "" && s[|s| - 1] == '.' then s[..|s| - 1] else s }

  /** Three decimals, without trailing zeros or a trailing point. */
  function FormatOversubscription(target: real): string { TrimPoint(TrimZeros(ThreeDecimals(Thousandths(target)))) }

  lemma {:induction false} TrimZerosKeeps(s: string)
    ensures var t := TrimZeros(s);
            t <= s && (t != "" ==> t[|t| - 1] != '0') && forall i :: |t| <= i < |s| ==> s[i] == '0'
  {
    if s != "" && s[|s| - 1] == '0' { TrimZerosKeeps(s[..|s| - 1]); }
  }

  /** The point is the fourth character from the end, and the only one. */
  lemma OnePoint(m: nat)
    ensures var s := ThreeDecimals(m);
            |s| > 4 && s[|s| - 4] == '.' && forall i :: 0 <= i < |s| && i != |s| - 4 ==> IsDigit(s[i])
  {
    var s := ThreeDecimals(m);
    forall i | 0 <= i < |s| - 4 ensures IsDigit(s[i]) {
      assert s[i] == Decimal(m / 10 / 10 / 10)[i] && s[i] in Decimal(m / 10 / 10 / 10);
    }
  }

  /** What is trimmed can be told from what is left, and put back. */
  lemma TrimmedOnlyZeros(a: nat, b: nat)
    requires TrimPoint(TrimZeros(ThreeDecimals(a))) == TrimPoint(TrimZeros(ThreeDecimals(b)))
    ensures ThreeDecimals(a) == ThreeDecimals(b)
  {
    var s, t := ThreeDecimals(a), ThreeDecimals(b);
    var u, v := TrimZeros(s), TrimZeros(t);
    OnePoint(a);
    OnePoint(b);
    TrimZerosKeeps(s);
    TrimZerosKeeps(t);
    assert s[|s| - 4] == '.' && |u| > |s| - 4 && u[|s| - 4] == '.';
    assert t[|t| - 4] == '.' && |v| > |t| - 4 && v[|t| - 4] == '.';
    if u[|u| - 1] == '.' || v[|v| - 1] == '.' {
      assert |u| == |s| - 3 && |v| == |t| - 3;
    }
    assert u == v;
    assert |s| == |t|;
    forall i | 0 <= i < |s| ensures s[i] == t[i] {
      if i < |u| { assert s[i] == u[i] && t[i] == v[i]; }
    }
  }

  /** Targets have the same label exactly if they agree to the thousandth: 1.50 and 1.5 are no change. */
  lemma LabelsTellThousandths(x: real, y: real)
    ensures FormatOversubscription(x) == FormatOversubscription(y) <==> Thousandths(x) == Thousandths(y)
  {
    var a, b := Thousandths(x), Thousandths(y);
    if FormatOversubscription(x) == FormatOversubscription(y) {
      TrimmedOnlyZeros(a, b);
      var s, n := ThreeDecimals(a), |ThreeDecimals(a)|;
      assert s[..n - 4] == Decimal(a / 10 / 10 / 10) && ThreeDecimals(b)[..n - 4] == Decimal(b / 10 / 10 / 10);
      DecimalIsInjective(a / 10 / 10 / 10, b / 10 / 10 / 10);
      LastDigits(a);
      LastDigits(b);
    }
  }

  lemma LastDigits(m: nat)
    ensures var s := ThreeDecimals(m);
            && s[|s| - 3] == Digit(m / 10 / 10 % 10) && s[|s| - 2] == Digit(m / 10 % 10) && s[|s| - 1] == Digit(m % 10)
  {
  }

  /** A target's thousandths are the nearest there are, of two equally near ones the even one. */
  lemma ThousandthsAreNearest(target: real)
    ensures var m, x := Thousandths(target), (if target <= 0.0 then 1.0 else target) * 1000.0;
            x - 0.5 <= m as real <= x + 0.5 && (m as real == x - 0.5 || m as real == x + 0.5 ==> m % 2 == 0)
  {
  }

  /** The label is those thousandths as a decimal: three digits after the point, and what comes before it, with no zeros
    * at the end and no point. */
  lemma LabelIsDecimal(target: real)
    ensures var s, f := ThreeDecimals(Thousandths(target)), FormatOversubscription(target);
            && s[|s| - 4] == '.' && AllDigits(s[..|s| - 4] + s[|s| - 3..])
            && Value(s[..|s| - 4] + s[|s| - 3..]) == Thousandths(target)
            && f <= s && (forall c :: c in s[|f|..] ==> c == '0' || c == '.')
            && f != "" && f[|f| - 1] != '.' && ('.' in f ==> f[|f| - 1] != '0')
  {
    var m := Thousandths(target);
    var s := ThreeDecimals(m);
    OnePoint(m);
    TrimZerosKeeps(s);
    LastDigits(m);
    DigitsOf(m);
    assert s[..|s| - 4] == Decimal(m / 10 / 10 / 10);
    assert s[|s| - 3..] == [Digit(m / 10 / 10 % 10), Digit(m / 10 % 10), Digit(m % 10)];
    var z := TrimZeros(s);
    assert |z| > |s| - 4 && z[|s| - 4] == '.';
    if z[|z| - 1] == '.' {
      assert |z| == |s| - 3;
      assert forall i :: 0 <= i < |z| - 1 ==> IsDigit(z[i]);
    }
  }

  lemma DigitsOf(m: nat)
    ensures var digits := Decimal(m / 10 / 10 / 10) + [Digit(m / 10 / 10 % 10), Digit(m / 10 % 10), Digit(m % 10)];
            AllDigits(digits) && Value(digits) == m
  {
    var head := Decimal(m / 10 / 10 / 10);
    ValueOfDecimal(m / 10 / 10 / 10);
    ValueMore(head, m / 10 / 10 % 10);
    ValueMore(head + [Digit(m / 10 / 10 % 10)], m / 10 % 10);
    ValueMore(head + [Digit(m / 10 / 10 % 10)] + [Digit(m / 10 % 10)], m % 10);
    assert head + [Digit(m / 10 / 10 % 10), Digit(m / 10 % 10), Digit(m % 10)]
        == head + [Digit(m / 10 / 10 % 10)] + [Digit(m / 10 % 10)] + [Digit(m % 10)];
  }

  lemma ValueMore(digits: string, d: nat)
    requires AllDigits(digits) && d < 10
    ensures AllDigits(digits + [Digit(d)]) && Value(digits + [Digit(d)]) == Value(digits) * 10 + d
  {
    assert (digits + [Digit(d)])[..|digits|] == digits;
  }

  function BuildDevice(cfg: Config, d: Definition, index: nat): Device {
    Device(DeviceName(cfg.hash, d.gpuType, index), Upper(d.gpuType), d.zone)
  }

  function Devices(cfg: Config, d: Definition, first: nat, last: nat): seq<Device>
    requires first <= last
  {
    seq(last - first, i requires 0 <= i < last - first => BuildDevice(cfg, d, first + i))
  }

  function Shards(capacity: int): nat {
    if capacity <= 0 then 0 else (capacity + DEVICES_PER_SLICE - 1) / DEVICES_PER_SLICE
  }

  function BuildLabels(cfg: Config, d: Definition, shard: nat): Labels {
    Labels(APP, COMPONENT, MANAGER, DnsLabel(cfg.hash, d.zone), DnsLabel(cfg.hash, d.gpuType),
           FormatInt(d.hostCapacity), FormatInt(d.clientCapacity), FormatOversubscription(d.oversubscription),
           Decimal(shard), map[])
  }

  function BuildSpec(cfg: Config, d: Definition, generation: int, shards: nat, devices: seq<Device>): Spec {
    Spec(cfg.driver, PoolName(cfg.hash, d.zone, d.gpuType), generation, shards, cfg.zoneLabelKey, d.zone,
         devices, map[])
  }

  function BuildSlice(cfg: Config, d: Definition, generation: int, shard: nat, shards: nat,
                      devices: seq<Device>): Slice {
    Slice(SliceName(cfg.hash, cfg.prefix, d.zone, d.gpuType, shard), BuildLabels(cfg, d, shard),
          BuildSpec(cfg, d, generation, shards, devices))
  }

  function Min(a: int, b: int): int { if a < b then a else b }

  function ShardDevices(cfg: Config, d: Definition, shard: nat): seq<Device>
    requires shard < Shards(d.capacity)
  {
    Devices(cfg, d, shard * DEVICES_PER_SLICE, Min((shard + 1) * DEVICES_PER_SLICE, d.capacity))
  }

  function Shard(cfg: Config, d: Definition, generation: int, shard: nat): Slice
    requires shard < Shards(d.capacity)
  {
    BuildSlice(cfg, d, generation, shard, Shards(d.capacity), ShardDevices(cfg, d, shard))
  }

  function Built(cfg: Config, d: Definition, generation: int): (slices: seq<Slice>)
    ensures |slices| == Shards(d.capacity)
  {
    seq(Shards(d.capacity), i requires 0 <= i < Shards(d.capacity) => Shard(cfg, d, generation, i))
  }

  method BuildResourceSlices(cfg: Config, d: Definition, generation: int) returns (slices: seq<Slice>)
    ensures slices == Built(cfg, d, generation)
  {
    var total := d.capacity;
    if total <= 0 {
      return [];
    }
    var shards: nat := (total + DEVICES_PER_SLICE - 1) / DEVICES_PER_SLICE;
    assert shards == Shards(d.capacity);
    ghost var built := Built(cfg, d, generation);
    slices := [];
    var shard: nat := 0;
    while shard < shards
      invariant shard <= shards
      invariant slices == built[..shard]
    {
      var slice := BuildShard(cfg, d, generation, shard, shards);
      slices := slices + [slice];
      shard := shard + 1;
    }
  }

  /** The body of the sharding loop. */
  method BuildShard(cfg: Config, d: Definition, generation: int, shard: nat, shards: nat) returns (slice: Slice)
    requires shard < shards == Shards(d.capacity)
    ensures slice == Built(cfg, d, generation)[shard]
  {
    var first := shard * DEVICES_PER_SLICE;
    var last := first + DEVICES_PER_SLICE;
    if last > d.capacity {
      last := d.capacity;
    }
    var devices := BuildDevices(cfg, d, first, last);
    slice := BuildSlice(cfg, d, generation, shard, shards, devices);
  }

  method BuildDevices(cfg: Config, d: Definition, first: nat, last: nat) returns (devices: seq<Device>)
    requires first <= last
    ensures devices == Devices(cfg, d, first, last)
  {
    devices := [];
    var index := first;
    while index < last
      invariant first <= index <= last
      invariant devices == Devices(cfg, d, first, index)
    {
      devices := devices + [BuildDevice(cfg, d, index)];
      index := index + 1;
    }
  }

  // ---------------------------------------------------------------- sharding partitions the devices

  function AllDevices(slices: seq<Slice>): seq<Device> {
    if slices == [] then [] else AllDevices(slices[..|slices| - 1]) + slices[|slices| - 1].spec.devices
  }

  lemma DevicesJoin(cfg: Config, d: Definition, middle: nat, last: nat)
    requires middle <= last
    ensures Devices(cfg, d, 0, middle) + Devices(cfg, d, middle, last) == Devices(cfg, d, 0, last)
  {
  }

  lemma {:induction false} DevicesUpTo(cfg: Config, d: Definition, generation: int, k: nat)
    requires k <= Shards(d.capacity)
    ensures AllDevices(Built(cfg, d, generation)[..k]) ==
              Devices(cfg, d, 0, if k == 0 then 0 else Min(k * DEVICES_PER_SLICE, d.capacity))
  {
    var slices := Built(cfg, d, generation);
    if k > 0 {
      DevicesUpTo(cfg, d, generation, k - 1);
      assert slices[..k][..k - 1] == slices[..k - 1] && slices[..k][k - 1] == slices[k - 1];
      DevicesJoin(cfg, d, (k - 1) * DEVICES_PER_SLICE, Min(k * DEVICES_PER_SLICE, d.capacity));
    }
  }

  /** Sharding partitions exactly: ceil(n/128) slices of 1 to 128 devices, which put together are the devices
    * 0 to n-1 in order; every slice states the true number of slices. */
  lemma ShardingPartitions(cfg: Config, d: Definition, generation: int)
    requires d.capacity > 0
    ensures var slices := Built(cfg, d, generation);
            && DEVICES_PER_SLICE * (|slices| - 1) < d.capacity <= DEVICES_PER_SLICE * |slices|
            && AllDevices(slices) == Devices(cfg, d, 0, d.capacity)
            && (forall s :: s in slices ==> 1 <= |s.spec.devices| <= DEVICES_PER_SLICE && s.spec.sliceCount == |slices|)
  {
    var slices := Built(cfg, d, generation);
    DevicesUpTo(cfg, d, generation, |slices|);
    assert slices[..|slices|] == slices;
  }

  /** What every slice of a pool says: whose it is, which nodes may use it, what it was made from; and that each of its
    * devices is of the pool's type, in capitals, and in its zone. */
  lemma SlicesSay(cfg: Config, d: Definition, generation: int, i: nat)
    requires i < Shards(d.capacity)
    ensures var s := Built(cfg, d, generation)[i];
            && s.labels.app == "thunder-dra-driver" && s.labels.component == "resource-inventory"
            && s.labels.manager == "thunder-device-plugin-operator"
            && s.labels.zone == DnsLabel(cfg.hash, d.zone) && s.labels.gpuType == DnsLabel(cfg.hash, d.gpuType)
            && s.spec.pool == s.labels.zone + "/" + s.labels.gpuType
            && s.spec.driver == cfg.driver && s.spec.generation == generation
            && s.spec.selectorKey == cfg.zoneLabelKey && s.spec.selectorZone == d.zone
            && forall v :: v in s.spec.devices ==> v.zone == d.zone && InCapitals(v.gpuType, d.gpuType)
  {
    var s := Shard(cfg, d, generation, i);
    forall v | v in s.spec.devices ensures v.zone == d.zone && InCapitals(v.gpuType, d.gpuType) {
      var k :| 0 <= k < |ShardDevices(cfg, d, i)| && ShardDevices(cfg, d, i)[k] == v;
      assert v == BuildDevice(cfg, d, i * DEVICES_PER_SLICE + k);
      IsInCapitals(d.gpuType);
    }
  }

  /** And the numbers on it read back. */
  lemma SlicesCount(cfg: Config, d: Definition, generation: int, i: nat)
    requires i < Shards(d.capacity) && IsInt64(d.hostCapacity) && IsInt64(d.clientCapacity) && IsInt64(i)
    ensures var labels := Built(cfg, d, generation)[i].labels;
            && ParseInt64(labels.hostCapacity) == d.hostCapacity
            && ParseInt64(labels.clientCapacity) == d.clientCapacity && ParseInt64(labels.shard) == i
  {
    var s := Shard(cfg, d, generation, i);
    ParseFormatted(d.hostCapacity);
    ParseFormatted(d.clientCapacity);
    ParseFormatted(i);
  }

  /** s is t with its small letters, and only those, made capital. */
  predicate InCapitals(s: string, t: string) {
    |s| == |t| && forall i :: 0 <= i < |s| ==>
      if 'a' <= t[i] <= 'z' then s[i] as int == t[i] as int - 32 else s[i] == t[i]
  }

  lemma IsInCapitals(t: string)
    ensures InCapitals(Upper(t), t)
  {
  }

  // ---------------------------------------------------------------- slices of different pools

  /** Prefix, zone and type make a label that leaves room for the number. */
  predicate IsWhole(cfg: Config, d: Definition, i: nat) {
    var base := cfg.prefix + "-" + d.zone + "-" + d.gpuType;
    IsLabel(base) && |base| + 1 + |Decimal(i)| <= MAX_LABEL
  }

  /** Such a slice is called by these and its number. */
  lemma WholeName(cfg: Config, d: Definition, i: nat)
    requires IsWhole(cfg, d, i)
    ensures SliceName(cfg.hash, cfg.prefix, d.zone, d.gpuType, i) ==
              cfg.prefix + "-" + (d.zone + "-" + d.gpuType) + "-" + Decimal(i)
  {
    var base := cfg.prefix + "-" + d.zone + "-" + d.gpuType;
    FixedPointsAreLabels(cfg.hash, base);
    assert base + ("-" + Decimal(i)) == cfg.prefix + "-" + (d.zone + "-" + d.gpuType) + "-" + Decimal(i);
  }

  /** A device is called by its type and its number, if the type is a label that leaves room for it. */
  lemma WholeDeviceName(cfg: Config, d: Definition, i: nat)
    requires IsLabel(d.gpuType) && |d.gpuType| + 1 + |Decimal(i)| <= MAX_LABEL
    ensures BuildDevice(cfg, d, i).name == d.gpuType + "-" + Decimal(i)
  {
    FixedPointsAreLabels(cfg.hash, d.gpuType);
    assert d.gpuType + ("-" + Decimal(i)) == d.gpuType + "-" + Decimal(i);
  }

  /** Where no hash is involved, slices of two pools have one name exactly if they have one number, and zone and type
    * read the same with a dash between them: so not if the type is the same, or has no dash. */
  lemma SliceNamesAgreeExactly(cfg: Config, a: Definition, b: Definition, i: nat, j: nat)
    requires IsWhole(cfg, a, i) && IsWhole(cfg, b, j)
    ensures var agree := SliceName(cfg.hash, cfg.prefix, a.zone, a.gpuType, i)
                      == SliceName(cfg.hash, cfg.prefix, b.zone, b.gpuType, j);
            && (agree <==> i == j && a.zone + "-" + a.gpuType == b.zone + "-" + b.gpuType)
            && (a.gpuType == b.gpuType ==> (agree <==> i == j && a.zone == b.zone))
            && ('-' !in a.gpuType && '-' !in b.gpuType ==> (agree <==> i == j && a.Key() == b.Key()))
  {
    var x, y := a.zone + "-" + a.gpuType, b.zone + "-" + b.gpuType;
    WholeName(cfg, a, i);
    WholeName(cfg, b, j);
    if cfg.prefix + "-" + x + "-" + Decimal(i) == cfg.prefix + "-" + y + "-" + Decimal(j) {
      NumbersAndBases(cfg.prefix + "-", x, y, i, j);
    }
    if x == y && a.gpuType == b.gpuType { SameEnding(a.zone, b.zone, a.gpuType); }
    if x == y && '-' !in a.gpuType && '-' !in b.gpuType { OneLastDash(a.zone, a.gpuType, b.zone, b.gpuType); }
  }

  lemma NumbersAndBases(prefix: string, x: string, y: string, i: nat, j: nat)
    requires prefix + x + "-" + Decimal(i) == prefix + y + "-" + Decimal(j)
    ensures i == j && x == y
  {
    LastDash(prefix + x, Decimal(i), prefix + y, Decimal(j));
    DecimalIsInjective(i, j);
    SameEnding(prefix + x, prefix + y, Decimal(i));
    assert x == (prefix + x)[|prefix|..] == (prefix + y)[|prefix|..] == y;
  }

  lemma SameEnding(a: string, b: string, end: string)
    requires a + "-" + end == b + "-" + end
    ensures a == b
  {
    assert |a| == |b|;
    assert a == (a + "-" + end)[..|a|] == (b + "-" + end)[..|b|] == b;
  }

  lemma LastDashAt(a: string, c: string)
    requires '-' !in c
    ensures var s := a + "-" + c; s[|a|] == '-' && forall i :: |a| < i < |s| ==> s[i] != '-'
  {
    var s := a + "-" + c;
    forall i | |a| < i < |s| ensures s[i] != '-' { assert s[i] == c[i - |a| - 1] && c[i - |a| - 1] in c; }
  }

  lemma OneLastDash(a: string, c: string, b: string, e: string)
    requires a + "-" + c == b + "-" + e && '-' !in c && '-' !in e
    ensures a == b && c == e
  {
    var s := a + "-" + c;
    LastDashAt(a, c);
    LastDashAt(b, e);
    assert |a| == |b|;
    assert a == s[..|a|] && c == s[|a| + 1..];
  }

  /** Two pools can want one slice name. */
  lemma TwoPoolsWantOneName(cfg: Config, i: nat)
    ensures SliceName(cfg.hash, cfg.prefix, "eu", "rtx-4090", i) == SliceName(cfg.hash, cfg.prefix, "eu-rtx", "4090", i)
  {
    assert cfg.prefix + "-" + "eu" + "-" + "rtx-4090" == cfg.prefix + "-" + "eu-rtx" + "-" + "4090";
  }

  /** All slice names of a pool are different. */
  lemma SliceNamesAreDistinct(cfg: Config, d: Definition, generation: int)
    ensures var slices := Built(cfg, d, generation);
            forall i, j :: 0 <= i < j < |slices| ==> slices[i].name != slices[j].name
  {
    var slices := Built(cfg, d, generation);
    var sliceLabel := DnsLabel(cfg.hash, cfg.prefix + "-" + d.zone + "-" + d.gpuType);
    forall i, j | 0 <= i < j < |slices| ensures slices[i].name != slices[j].name {
      if slices[i].name == slices[j].name { NumberedNamesAreDistinct(cfg.hash, sliceLabel, i, j); }
    }
  }

  /** All device names of a pool are different. */
  lemma DeviceNamesAreDistinct(cfg: Config, d: Definition, n: nat)
    ensures var devices := Devices(cfg, d, 0, n);
            forall i, j :: 0 <= i < j < |devices| ==> devices[i].name != devices[j].name
  {
    var devices := Devices(cfg, d, 0, n);
    forall i, j | 0 <= i < j < |devices| ensures devices[i].name != devices[j].name {
      if devices[i].name == devices[j].name { NumberedNamesAreDistinct(cfg.hash, DnsLabel(cfg.hash, d.gpuType), i, j); }
    }
  }

  /** However long zone and type are, every device and slice name is a valid label. */
  lemma PublishedNamesAreLabels(cfg: Config, d: Definition, generation: int, i: nat)
    requires i < d.capacity && IsInt64(d.capacity)
    ensures IsLabel(BuildDevice(cfg, d, i).name)
    ensures i < Shards(d.capacity) ==> IsLabel(Built(cfg, d, generation)[i].name)
  {
    Int64IsIndex(i);
    DnsLabelIsLabel(cfg.hash, d.gpuType);
    NumberedNameIsLabel(cfg.hash, DnsLabel(cfg.hash, d.gpuType), i);
    var base := cfg.prefix + "-" + d.zone + "-" + d.gpuType;
    DnsLabelIsLabel(cfg.hash, base);
    NumberedNameIsLabel(cfg.hash, DnsLabel(cfg.hash, base), i);
  }

  lemma Int64IsIndex(n: nat)
    requires IsInt64(n)
    ensures n < INDEX_LIMIT
  {
    assert Power10(9) == 1000000000 && Power10(10) == 10 * Power10(9);
    assert Power10(13) == 1000 * Power10(10) && Power10(16) == 1000 * Power10(13) && Power10(19) == 1000 * Power10(16);
  }

  // ---------------------------------------------------------------- reading a pool back

  function KeyOf(s: Slice): Option<PoolKey> { KeyOfPool(s.spec.pool) }

  function DeviceCount(slices: seq<Slice>): nat {
    if slices == [] then 0 else |slices[0].spec.devices| + DeviceCount(slices[1..])
  }

  function DefinitionOf(slices: seq<Slice>): Definition {
    if slices == [] || KeyOf(slices[0]).None? then Definition("", "", 0, 0, 0.0, 0)
    else
      var key := KeyOf(slices[0]).value;
      Definition(key.zone, key.gpuType, ParseInt64(slices[0].labels.hostCapacity),
                 ParseInt64(slices[0].labels.clientCapacity), 0.0, DeviceCount(slices))
  }

  method DefinitionFromResourceSlices(slices: seq<Slice>) returns (d: Definition)
    ensures d == DefinitionOf(slices)
  {
    if |slices| == 0 {
      return Definition("", "", 0, 0, 0.0, 0);
    }
    var key := KeyOf(slices[0]);
    if key.None? {
      return Definition("", "", 0, 0, 0.0, 0);
    }
    var capacity := 0;
    for i := 0 to |slices|
      invariant capacity + DeviceCount(slices[i..]) == DeviceCount(slices)
    {
      capacity := capacity + |slices[i].spec.devices|;
      assert slices[i..][1..] == slices[i + 1..];
    }
    return Definition(key.value.zone, key.value.gpuType, ParseInt64(slices[0].labels.hostCapacity),
                      ParseInt64(slices[0].labels.clientCapacity), 0.0, capacity);
  }

  lemma {:induction false} DeviceCountConcat(a: seq<Slice>, b: seq<Slice>)
    ensures DeviceCount(a + b) == DeviceCount(a) + DeviceCount(b)
  {
    if a == [] {
      assert a + b == b;
    } else {
      assert (a + b)[1..] == a[1..] + b;
      DeviceCountConcat(a[1..], b);
    }
  }

  lemma {:induction false} DeviceCountIsAll(slices: seq<Slice>)
    ensures DeviceCount(slices) == |AllDevices(slices)|
    decreases |slices|
  {
    if slices != [] {
      var init, last := slices[..|slices| - 1], slices[|slices| - 1];
      DeviceCountIsAll(init);
      assert slices == init + [last];
      DeviceCountConcat(init, [last]);
    }
  }

  /** Counting devices does not depend on the order the slices are listed in. */
  lemma {:induction false} DeviceCountPermuted(a: seq<Slice>, b: seq<Slice>)
    requires multiset(a) == multiset(b)
    ensures DeviceCount(a) == DeviceCount(b)
    decreases |a|
  {
    if a == [] {
      SameLength(a, b);
    } else {
      var i := Locate(a, b);
      WithoutOne(a, b, i);
      DeviceCountPermuted(a[1..], b[..i] + b[i + 1..]);
      DeviceCountConcat(b[..i], [a[0]] + b[i + 1..]);
      DeviceCountConcat(b[..i], b[i + 1..]);
    }
  }

  /** Round trip: in whatever order its slices are listed, a published pool reads back as what was published,
    * in every field but the oversubscription target, which no slice records exactly. */
  lemma PoolReadsBack(cfg: Config, d: Definition, generation: int, listed: seq<Slice>)
    requires d.capacity > 0 && IsInt64(d.hostCapacity) && IsInt64(d.clientCapacity)
    requires multiset(listed) == multiset(Built(cfg, d, generation))
    ensures var key := Labelled(cfg.hash, d.Key());
            DefinitionOf(listed) == d.(zone := key.zone, gpuType := key.gpuType, oversubscription := 0.0)
    ensures IsLabel(d.zone) && IsLabel(d.gpuType) ==> DefinitionOf(listed) == d.(oversubscription := 0.0)
  {
    var built := Built(cfg, d, generation);
    ShardingPartitions(cfg, d, generation);
    DeviceCountIsAll(built);
    DeviceCountPermuted(listed, built);
    SameLength(listed, built);
    assert listed[0] in multiset(built);
    var i :| 0 <= i < |built| && built[i] == listed[0];
    assert listed[0] == Shard(cfg, d, generation, i);
    PoolNameIsRecognised(cfg.hash, d.Key());
    ParseFormatted(d.hostCapacity);
    ParseFormatted(d.clientCapacity);
    FixedPointsAreLabels(cfg.hash, d.zone);
    FixedPointsAreLabels(cfg.hash, d.gpuType);
  }
}
