/** The hook's command line: the printer that writes it into the CDI spec and the parser that reads it. */
module HookArgs {
  import opened Sequences
  import opened Text
  import opened Wrappers

  datatype Flag =
    | StateDir | CentralURL | TelemetryURL | InstallURL | ArtifactBaseURL
    | LibthunderURL | LibthunderSHA256 | CacheDir | CABundle | ClientName

  function Name(f: Flag): string {
    match f
    case StateDir => "--state-dir"
    case CentralURL => "--central-url"
    case TelemetryURL => "--telemetry-url"
    case InstallURL => "--install-url"
    case ArtifactBaseURL => "--artifact-base-url"
    case LibthunderURL => "--libthunder-url"
    case LibthunderSHA256 => "--libthunder-sha256"
    case CacheDir => "--cache-dir"
    case CABundle => "--ca-bundle"
    case ClientName => "--client-name"
  }

  /** The parser's switch on a flag's name. */
  function Named(name: string): Option<Flag> {
    if name == "--state-dir" then Some(StateDir)
    else if name == "--central-url" then Some(CentralURL)
    else if name == "--telemetry-url" then Some(TelemetryURL)
    else if name == "--install-url" then Some(InstallURL)
    else if name == "--artifact-base-url" then Some(ArtifactBaseURL)
    else if name == "--libthunder-url" then Some(LibthunderURL)
    else if name == "--libthunder-sha256" then Some(LibthunderSHA256)
    else if name == "--cache-dir" then Some(CacheDir)
    else if name == "--ca-bundle" then Some(CABundle)
    else if name == "--client-name" then Some(ClientName)
    else None
  }

  lemma NamesAreDistinct(f: Flag)
    ensures Named(Name(f)) == Some(f) && '=' !in Name(f)
  {
  }

  datatype Options = Options(
    stateDir: string, centralURL: string, telemetryURL: string, installURL: string, artifactBaseURL: string,
    libthunderURL: string, libthunderSHA256: string, cacheDir: string, caBundle: string, clientName: string)
  {
    function Get(f: Flag): string {
      match f
      case StateDir => stateDir
      case CentralURL => centralURL
      case TelemetryURL => telemetryURL
      case InstallURL => installURL
      case ArtifactBaseURL => artifactBaseURL
      case LibthunderURL => libthunderURL
      case LibthunderSHA256 => libthunderSHA256
      case CacheDir => cacheDir
      case CABundle => caBundle
      case ClientName => clientName
    }

    function With(f: Flag, value: string): Options {
      match f
      case StateDir => this.(stateDir := value)
      case CentralURL => this.(centralURL := value)
      case TelemetryURL => this.(telemetryURL := value)
      case InstallURL => this.(installURL := value)
      case ArtifactBaseURL => this.(artifactBaseURL := value)
      case LibthunderURL => this.(libthunderURL := value)
      case LibthunderSHA256 => this.(libthunderSHA256 := value)
      case CacheDir => this.(cacheDir := value)
      case CABundle => this.(caBundle := value)
      case ClientName => this.(clientName := value)
    }
  }

  const UNSET := Options("", "", "", "", "", "", "", "", "", "")

  lemma SameSettings(a: Options, b: Options)
    requires forall f :: a.Get(f) == b.Get(f)
    ensures a == b
  {
    assert a.Get(StateDir) == b.Get(StateDir) && a.Get(CentralURL) == b.Get(CentralURL);
    assert a.Get(TelemetryURL) == b.Get(TelemetryURL) && a.Get(InstallURL) == b.Get(InstallURL);
    assert a.Get(ArtifactBaseURL) == b.Get(ArtifactBaseURL) && a.Get(LibthunderURL) == b.Get(LibthunderURL);
    assert a.Get(LibthunderSHA256) == b.Get(LibthunderSHA256) && a.Get(CacheDir) == b.Get(CacheDir);
    assert a.Get(CABundle) == b.Get(CABundle) && a.Get(ClientName) == b.Get(ClientName);
  }

  // ---------------------------------------------------------------- the parser

  datatype Error = NeedsValue(name: string) | UnknownFlag(name: string) | NeedsStateDir
  datatype Result = Ok(options: Options) | Err(error: Error)

  /** Where the first '=' is, or the length if there is none. */
  function Equals(s: string): (i: nat)
    ensures i <= |s| && '=' !in s[..i] && (i < |s| ==> s[i] == '=')
  {
    if s == "" || s[0] == '=' then 0 else 1 + Equals(s[1..])
  }

  /** What the arguments mean, read from the left over the options already set; `named` is the switch on
    * flag names. */
  function Meaning(named: string -> Option<Flag>, args: seq<string>, opts: Options): Result
    decreases |args|, 0
  {
    if args == [] then
      if Blank(opts.stateDir) then Err(NeedsStateDir) else Ok(opts)
    else
      var i := Equals(args[0]);
      if i < |args[0]| then Assign(named, args[0][..i], args[0][i + 1..], args[1..], opts)
      else if |args| > 1 then Assign(named, args[0], args[1], args[2..], opts)
      else Err(NeedsValue(args[0]))
  }

  function Assign(named: string -> Option<Flag>, name: string, value: string, rest: seq<string>, opts: Options): Result
    decreases |rest|, 1
  {
    match named(name)
    case None => Err(UnknownFlag(name))
    case Some(f) => Meaning(named, rest, opts.With(f, value))
  }

  method ParseCDIHookArgs(args: seq<string>) returns (r: Result)
    ensures r == Meaning(Named, args, UNSET)
  {
    var opts := UNSET;
    var i := 0;
    while i < |args|
      invariant 0 <= i <= |args|
      invariant Meaning(Named, args, UNSET) == Meaning(Named, args[i..], opts)
    {
      ghost var rest := args[i..];
      var name, value := args[i], "";
      var equals := Equals(name);
      if equals < |name| {
        name, value := name[..equals], name[equals + 1..];
        assert rest[1..] == args[i + 1..];
      } else if i + 1 < |args| {
        i := i + 1;
        value := args[i];
        assert rest[2..] == args[i + 1..];
      } else {
        return Err(NeedsValue(name));
      }
      match Named(name) {
        case None => return Err(UnknownFlag(name));
        case Some(f) => opts := opts.With(f, value);
      }
      i := i + 1;
    }
    if Blank(opts.stateDir) {
      return Err(NeedsStateDir);
    }
    return Ok(opts);
  }

  // ---------------------------------------------------------------- the printer

  type Pair = (string, string)

  function Flatten(pairs: seq<Pair>): (args: seq<string>)
    ensures |args| == 2 * |pairs|
    ensures forall i :: 0 <= i < |pairs| ==> args[2 * i] == pairs[i].0 && args[2 * i + 1] == pairs[i].1
  {
    if pairs == [] then []
    else
      var rest := Flatten(pairs[1..]);
      var args := [pairs[0].0, pairs[0].1] + rest;
      assert forall i :: 0 < i < |pairs| ==>
                args[2 * i] == rest[2 * (i - 1)] && args[2 * i + 1] == rest[2 * (i - 1) + 1];
      args
  }

  predicate Sorted(pairs: seq<Pair>) {
    forall i, j :: 0 <= i < j < |pairs| ==> !Before(pairs[j].0, pairs[i].0)
  }

  predicate DistinctNames(pairs: seq<Pair>) {
    forall i, j :: 0 <= i < j < |pairs| ==> pairs[i].0 != pairs[j].0
  }

  /** sort.Slice on the flags: all the library promises is a sorted rearrangement. */
  method SortPairs(pairs: seq<Pair>) returns (sorted: seq<Pair>)
    ensures Sorted(sorted) && multiset(sorted) == multiset(pairs)
  {
    sorted := [];
    for n := 0 to |pairs|
      invariant Sorted(sorted) && multiset(sorted) == multiset(pairs[..n])
    {
      sorted := Insert(pairs[n], sorted);
      assert pairs[..n + 1] == pairs[..n] + [pairs[n]];
    }
    assert pairs[..|pairs|] == pairs;
  }

  method Insert(p: Pair, pairs: seq<Pair>) returns (r: seq<Pair>)
    requires Sorted(pairs)
    ensures Sorted(r) && multiset(r) == multiset(pairs) + multiset{p}
  {
    var k := 0;
    while k < |pairs| && !Before(p.0, pairs[k].0)
      invariant 0 <= k <= |pairs|
      invariant forall i :: 0 <= i < k ==> !Before(p.0, pairs[i].0)
    {
      k := k + 1;
    }
    r := pairs[..k] + [p] + pairs[k..];
    assert pairs == pairs[..k] + pairs[k..];
    forall j | k <= j < |pairs| ensures !Before(pairs[j].0, p.0) {
      BeforeIsAsymmetric(p.0, pairs[k].0);
      if Before(pairs[j].0, p.0) { BeforeIsTransitive(pairs[j].0, p.0, pairs[k].0); }
    }
  }

  /** With distinct flags there is only one sorted order, whatever order the pairs came in. */
  lemma {:induction false} SortedOrderIsUnique(a: seq<Pair>, b: seq<Pair>)
    requires Sorted(a) && Sorted(b) && DistinctNames(a) && multiset(a) == multiset(b)
    ensures a == b
    decreases |a|
  {
    assert |a| == |multiset(a)| == |multiset(b)| == |b|;
    if a != [] {
      FirstIsLeast(a, b);
      FirstIsLeast(b, a);
      if a[0] != b[0] {
        assert a[0] in b && b[0] in a by { assert a[0] in multiset(b) && b[0] in multiset(a); }
        BeforeIsTotal(a[0].0, b[0].0);
      }
      assert a == [a[0]] + a[1..] && b == [b[0]] + b[1..];
      assert multiset(a[1..]) == multiset(a) - multiset{a[0]} == multiset(b[1..]);
      SortedOrderIsUnique(a[1..], b[1..]);
    }
  }

  lemma FirstIsLeast(a: seq<Pair>, b: seq<Pair>)
    requires Sorted(a) && a != [] && b != [] && multiset(a) == multiset(b)
    ensures !Before(b[0].0, a[0].0)
  {
    assert b[0] in multiset(a);
    var i :| 0 <= i < |a| && a[i] == b[0];
    if i == 0 && Before(b[0].0, a[0].0) { BeforeIsAsymmetric(b[0].0, a[0].0); }
  }

  /** The slice from index `from` on is a list of flags and values; put the pairs in order, in place. An odd
    * argument at the end stays where it is. */
  method SortArgPairs(args: array<string>, from: nat) returns (ghost sorted: seq<Pair>)
    requires from <= args.Length
    modifies args
    ensures Sorted(sorted) && multiset(sorted) == multiset(PairsOf(old(args[from..])))
    ensures from + 2 * |sorted| <= args.Length
    ensures args[..] == old(args[..from]) + Flatten(sorted) + old(args[from + 2 * |sorted|..])
  {
    var pairs := ReadPairs(args, from);
    var result := SortPairs(pairs);
    assert |result| == |multiset(result)| == |multiset(pairs)| == |pairs|;
    WritePairs(args, from, result);
    return result;
  }

  method ReadPairs(args: array<string>, from: nat) returns (pairs: seq<Pair>)
    requires from <= args.Length
    ensures pairs == PairsOf(args[from..])
  {
    ghost var slice := args[from..];
    pairs := [];
    var i := 0;
    while i + 1 < args.Length - from
      invariant 0 <= i <= args.Length - from && i == 2 * |pairs|
      invariant pairs == PairsOf(slice[..i])
    {
      PairsOfLonger(slice, i);
      pairs := pairs + [(args[from + i], args[from + i + 1])];
      i := i + 2;
    }
    PairsOfRest(slice, i);
  }

  method WritePairs(args: array<string>, from: nat, pairs: seq<Pair>)
    requires from + 2 * |pairs| <= args.Length
    modifies args
    ensures args[..] == old(args[..from]) + Flatten(pairs) + old(args[from + 2 * |pairs|..])
  {
    ghost var was := args[..];
    var k := 0;
    while k < |pairs|
      invariant 0 <= k <= |pairs|
      invariant forall j :: 0 <= j < from || from + 2 * k <= j < args.Length ==> args[j] == was[j]
      invariant args[from..from + 2 * k] == Flatten(pairs[..k])
    {
      args[from + k * 2], args[from + k * 2 + 1] := pairs[k].0, pairs[k].1;
      FlattenLonger(pairs, k);
      assert args[from..from + 2 * k + 2] == args[from..from + 2 * k] + [pairs[k].0, pairs[k].1];
      k := k + 1;
    }
    assert pairs[..k] == pairs;
    Rejoined(was, args[..], from, from + 2 * k);
    assert args[from..from + 2 * k] == args[..][from..from + 2 * k];
    assert was[..from] == old(args[..from]) && was[from + 2 * k..] == old(args[from + 2 * |pairs|..]);
  }

  lemma Rejoined(was: seq<string>, now: seq<string>, from: nat, to: nat)
    requires from <= to <= |was| == |now| && forall j :: 0 <= j < from || to <= j < |now| ==> now[j] == was[j]
    ensures now == was[..from] + now[from..to] + was[to..]
  {
  }

  lemma {:induction false} FlattenLonger(pairs: seq<Pair>, k: nat)
    requires k < |pairs|
    ensures Flatten(pairs[..k + 1]) == Flatten(pairs[..k]) + [pairs[k].0, pairs[k].1]
    decreases k
  {
    if k > 0 {
      FlattenLonger(pairs[1..], k - 1);
      assert pairs[..k + 1][1..] == pairs[1..][..k] && pairs[..k][1..] == pairs[1..][..k - 1];
    }
  }

  function PairsOf(args: seq<string>): (pairs: seq<Pair>)
    ensures |pairs| == |args| / 2
  {
    if |args| < 2 then [] else [(args[0], args[1])] + PairsOf(args[2..])
  }

  lemma {:induction false} PairsOfLonger(args: seq<string>, i: nat)
    requires i % 2 == 0 && i + 1 < |args|
    ensures PairsOf(args[..i + 2]) == PairsOf(args[..i]) + [(args[i], args[i + 1])]
    decreases i
  {
    if i > 0 {
      PairsOfLonger(args[2..], i - 2);
      assert args[2..][..i] == args[..i + 2][2..] && args[2..][..i - 2] == args[..i][2..];
    }
  }

  lemma {:induction false} PairsOfRest(args: seq<string>, i: nat)
    requires i % 2 == 0 && i <= |args| <= i + 1
    ensures PairsOf(args) == PairsOf(args[..i])
    decreases i
  {
    if i > 0 {
      PairsOfRest(args[2..], i - 2);
      assert args[2..][..i - 2] == args[..i][2..];
    }
  }

  lemma {:induction false} PairsOfFlatten(pairs: seq<Pair>)
    ensures PairsOf(Flatten(pairs)) == pairs
  {
    if pairs != [] {
      PairsOfFlatten(pairs[1..]);
      assert Flatten(pairs)[2..] == Flatten(pairs[1..]);
    }
  }

  /** The optional flags, as they sort. */
  const ORDER := [ArtifactBaseURL, CABundle, CacheDir, CentralURL, ClientName, InstallURL,
                  LibthunderSHA256, LibthunderURL, TelemetryURL]

  /** What is printed for one flag: nothing for a blank value, and any other verbatim. */
  function Entry(settings: Options): Flag -> seq<Pair> {
    f => if Blank(settings.Get(f)) then [] else [(Name(f), settings.Get(f))]
  }

  function Printed(entry: Flag -> seq<Pair>, flags: seq<Flag>): seq<Pair> {
    if flags == [] then [] else entry(flags[0]) + Printed(entry, flags[1..])
  }

  /** The one command line for these settings. */
  function Argv(hookPath: string, stateDir: string, settings: Options): seq<string> {
    [hookPath, "cdi-hook", "--state-dir", stateDir] + Flatten(Printed(Entry(settings), ORDER))
  }

  lemma OrderIsSorted(i: nat, j: nat)
    requires i < j < |ORDER|
    ensures Before(Name(ORDER[i]), Name(ORDER[j]))
    decreases j - i
  {
    if j == i + 1 { AdjacentInOrder(i); }
    else {
      AdjacentInOrder(i);
      OrderIsSorted(i + 1, j);
      BeforeIsTransitive(Name(ORDER[i]), Name(ORDER[i + 1]), Name(ORDER[j]));
    }
  }

  lemma BeforeAfterPrefix(a: string, b: string, k: nat)
    requires k < |a| && k < |b| && a[..k] == b[..k] && a[k] < b[k]
    ensures Before(a, b)
    decreases k
  {
    if k > 0 {
      assert a[0] == a[..k][0] == b[..k][0] == b[0];
      assert a[1..][..k - 1] == a[..k][1..] && b[1..][..k - 1] == b[..k][1..];
      BeforeAfterPrefix(a[1..], b[1..], k - 1);
    }
  }

  lemma AdjacentInOrder(i: nat)
    requires i + 1 < |ORDER|
    ensures Before(Name(ORDER[i]), Name(ORDER[i + 1]))
  {
    var a, b := Name(ORDER[i]), Name(ORDER[i + 1]);
    BeforeAfterPrefix(a, b, if i == 1 then 4 else if i == 6 then 13 else if i == 2 || i == 3 then 3 else 2);
  }

  /** Entries of one flag carry that flag's name, and flags come in order of their names. */
  ghost predicate NamesRise(name: Flag -> string, entry: Flag -> seq<Pair>, flags: seq<Flag>) {
    && (forall f :: |entry(f)| <= 1 && (entry(f) != [] ==> entry(f)[0].0 == name(f)))
    && (forall i, j :: 0 <= i < j < |flags| ==> Before(name(flags[i]), name(flags[j])))
  }

  ghost predicate NamedFrom(name: Flag -> string, pairs: seq<Pair>, flags: seq<Flag>) {
    forall p :: p in pairs ==> exists i :: 0 <= i < |flags| && p.0 == name(flags[i])
  }

  lemma FirstNameIsLeast(name: Flag -> string, entry: Flag -> seq<Pair>, flags: seq<Flag>, rest: seq<Pair>)
    requires NamesRise(name, entry, flags) && flags != []
    requires NamedFrom(name, rest, flags[1..])
    ensures forall p :: p in rest ==> name(flags[0]) != p.0 && !Before(p.0, name(flags[0]))
  {
    forall p | p in rest ensures name(flags[0]) != p.0 && !Before(p.0, name(flags[0])) {
      var i :| 0 <= i < |flags[1..]| && p.0 == name(flags[1..][i]);
      assert flags[1..][i] == flags[i + 1];
      BeforeIsAsymmetric(name(flags[0]), p.0);
    }
  }

  lemma LeastFirst(p: Pair, rest: seq<Pair>)
    requires Sorted(rest) && DistinctNames(rest) && forall q :: q in rest ==> p.0 != q.0 && !Before(q.0, p.0)
    ensures Sorted([p] + rest) && DistinctNames([p] + rest)
  {
    var all := [p] + rest;
    forall i, j | 0 <= i < j < |all| ensures !Before(all[j].0, all[i].0) && all[i].0 != all[j].0 {
      assert all[j] == rest[j - 1] && rest[j - 1] in rest;
      if i > 0 { assert all[i] == rest[i - 1]; }
    }
  }

  lemma NamedFromMore(name: Flag -> string, first: seq<Pair>, rest: seq<Pair>, flags: seq<Flag>)
    requires flags != [] && NamedFrom(name, rest, flags[1..]) && forall p :: p in first ==> p.0 == name(flags[0])
    ensures NamedFrom(name, first + rest, flags)
  {
    forall p | p in first + rest ensures exists i :: 0 <= i < |flags| && p.0 == name(flags[i]) {
      if p !in first {
        var i :| 0 <= i < |flags[1..]| && p.0 == name(flags[1..][i]);
        assert p.0 == name(flags[i + 1]);
      }
    }
  }

  lemma {:induction false} PrintedRises(name: Flag -> string, entry: Flag -> seq<Pair>, flags: seq<Flag>)
    requires NamesRise(name, entry, flags)
    ensures var pairs := Printed(entry, flags); Sorted(pairs) && DistinctNames(pairs) && NamedFrom(name, pairs, flags)
  {
    if flags != [] {
      var first, rest := entry(flags[0]), Printed(entry, flags[1..]);
      PrintedRises(name, entry, flags[1..]);
      NamedFromMore(name, first, rest, flags);
      if first == [] {
        assert first + rest == rest;
      } else {
        FirstNameIsLeast(name, entry, flags, rest);
        LeastFirst(first[0], rest);
        assert first == [first[0]];
      }
    }
  }

  lemma {:induction false} PrintedConcat(entry: Flag -> seq<Pair>, a: seq<Flag>, b: seq<Flag>)
    ensures Printed(entry, a + b) == Printed(entry, a) + Printed(entry, b)
  {
    if a == [] {
      assert a + b == b;
    } else {
      assert (a + b)[1..] == a[1..] + b;
      PrintedConcat(entry, a[1..], b);
    }
  }

  lemma PrintedWithout(entry: Flag -> seq<Pair>, flags: seq<Flag>, i: nat)
    requires i < |flags|
    ensures multiset(Printed(entry, flags)) ==
              multiset(entry(flags[i])) + multiset(Printed(entry, flags[..i] + flags[i + 1..]))
  {
    assert flags == flags[..i] + flags[i..] && flags[i..] == [flags[i]] + flags[i + 1..];
    PrintedConcat(entry, flags[..i], flags[i..]);
    PrintedConcat(entry, flags[..i], flags[i + 1..]);
  }

  /** Rearranging flags only rearranges what is printed for them. */
  lemma {:induction false} PrintedRearranged(entry: Flag -> seq<Pair>, a: seq<Flag>, b: seq<Flag>)
    requires multiset(a) == multiset(b)
    ensures multiset(Printed(entry, a)) == multiset(Printed(entry, b))
    decreases |a|
  {
    if a == [] {
      SameLength(a, b);
    } else {
      var i := Locate(a, b);
      WithoutOne(a, b, i);
      PrintedRearranged(entry, a[1..], b[..i] + b[i + 1..]);
      PrintedWithout(entry, b, i);
    }
  }

  /** However the flags are ranged over, sorting the pairs gives the one canonical list. */
  lemma OnlyOneOrder(name: Flag -> string, entry: Flag -> seq<Pair>, flags: seq<Flag>, order: seq<Flag>,
                     sorted: seq<Pair>)
    requires NamesRise(name, entry, flags) && multiset(order) == multiset(flags)
    requires Sorted(sorted) && multiset(sorted) == multiset(Printed(entry, order))
    ensures sorted == Printed(entry, flags)
  {
    PrintedRises(name, entry, flags);
    PrintedRearranged(entry, order, flags);
    SortedOrderIsUnique(Printed(entry, flags), sorted);
  }

  lemma NamesRiseInOrder(settings: Options)
    ensures NamesRise(Name, Entry(settings), ORDER)
  {
    forall i, j | 0 <= i < j < |ORDER| ensures Before(Name(ORDER[i]), Name(ORDER[j])) { OrderIsSorted(i, j); }
  }

  /** Range over a map of flags, in whatever order it yields them, and collect their pairs. */
  method CollectPairs(flags: set<Flag>, entry: Flag -> seq<Pair>) returns (pairs: seq<Pair>, ghost order: seq<Flag>)
    ensures multiset(order) == multiset(flags) && pairs == Printed(entry, order)
  {
    pairs, order := [], [];
    var rest := flags;
    while rest != {}
      invariant rest <= flags
      invariant multiset(order) == multiset(flags - rest)
      invariant pairs == Printed(entry, order)
    {
      var f :| f in rest;
      PrintedConcat(entry, order, [f]);
      pairs := pairs + entry(f);
      order := order + [f];
      rest := rest - {f};
      assert flags - rest == (flags - (rest + {f})) + {f};
    }
    assert flags - rest == flags;
  }

  lemma {:induction false} SetOfDistinct(flags: seq<Flag>)
    requires forall i, j :: 0 <= i < j < |flags| ==> flags[i] != flags[j]
    ensures multiset(set f | f in flags) == multiset(flags)
  {
    if flags != [] {
      SetOfDistinct(flags[1..]);
      assert flags == [flags[0]] + flags[1..];
      assert (set f | f in flags) == (set f | f in flags[1..]) + {flags[0]};
    }
  }

  lemma OrderIsDistinct()
    ensures forall i, j :: 0 <= i < j < |ORDER| ==> ORDER[i] != ORDER[j]
  {
  }

  /** hooks: the map of flags is ranged over in any order, and the argument list comes out the same. */
  method Hooks(hookPath: string, stateDir: string, settings: Options) returns (argv: Option<seq<string>>)
    ensures argv == if Blank(hookPath) then None else Some(Argv(TrimSpace(hookPath), stateDir, settings))
  {
    var path := TrimSpace(hookPath);
    if path == "" {
      return None;
    }
    var entry := Entry(settings);
    var pairs, order := CollectPairs((set f | f in ORDER), entry);
    var head := [path, "cdi-hook", "--state-dir", stateDir];
    var args, sorted := AppendSorted(head, pairs);
    OrderIsDistinct();
    SetOfDistinct(ORDER);
    NamesRiseInOrder(settings);
    OnlyOneOrder(Name, entry, ORDER, order, sorted);
    return Some(args);
  }

  method AppendSorted(head: seq<string>, pairs: seq<Pair>) returns (argv: seq<string>, ghost sorted: seq<Pair>)
    ensures argv == head + Flatten(sorted) && Sorted(sorted) && multiset(sorted) == multiset(pairs)
  {
    var flat := Flatten(pairs);
    var args := SliceOf(head + flat);
    ghost var was := args[..];
    assert args[..|head|] == was[..|head|] == head && args[|head|..] == was[|head|..] == flat;
    PairsOfFlatten(pairs);
    sorted := SortArgPairs(args, |head|);
    assert |sorted| == |multiset(sorted)| == |multiset(pairs)| == |pairs|;
    assert was[|head| + 2 * |sorted|..] == [];
    argv := args[..];
  }

  method SliceOf(s: seq<string>) returns (a: array<string>)
    ensures fresh(a) && a[..] == s
  {
    a := new string[|s|];
    for i := 0 to |s|
      invariant a[..i] == s[..i]
    {
      a[i] := s[i];
    }
  }

  // ---------------------------------------------------------------- the round trip

  /** What is left of some settings once blank values are dropped. */
  function Kept(stateDir: string, settings: Options): Options {
    var keep := (v: string) => if Blank(v) then "" else v;
    Options(stateDir, keep(settings.centralURL), keep(settings.telemetryURL), keep(settings.installURL),
            keep(settings.artifactBaseURL), keep(settings.libthunderURL), keep(settings.libthunderSHA256),
            keep(settings.cacheDir), keep(settings.caBundle), keep(settings.clientName))
  }

  ghost predicate Names(named: string -> Option<Flag>, name: string, f: Flag) {
    named(name) == Some(f) && Equals(name) == |name|
  }

  lemma NoEquals(s: string)
    requires '=' !in s
    ensures Equals(s) == |s|
  {
  }

  /** The options after reading what is printed for some flags. */
  function Apply(entry: Flag -> seq<Pair>, flags: seq<Flag>, opts: Options): Options {
    if flags == [] then opts
    else Apply(entry, flags[1..], if entry(flags[0]) == [] then opts else opts.With(flags[0], entry(flags[0])[0].1))
  }

  ghost predicate Readable(named: string -> Option<Flag>, name: Flag -> string, entry: Flag -> seq<Pair>) {
    && (forall f :: Names(named, name(f), f))
    && (forall f :: |entry(f)| <= 1 && (entry(f) != [] ==> entry(f)[0].0 == name(f)))
  }

  lemma ReadsOne(named: string -> Option<Flag>, p: Pair, rest: seq<string>, f: Flag, opts: Options)
    requires Names(named, p.0, f)
    ensures Meaning(named, [p.0, p.1] + rest, opts) == Meaning(named, rest, opts.With(f, p.1))
  {
    assert ([p.0, p.1] + rest)[2..] == rest;
  }

  lemma {:induction false} ReadsPrinted(named: string -> Option<Flag>, name: Flag -> string, entry: Flag -> seq<Pair>,
                                        flags: seq<Flag>, opts: Options)
    requires Readable(named, name, entry)
    ensures Meaning(named, Flatten(Printed(entry, flags)), opts) == Meaning(named, [], Apply(entry, flags, opts))
    decreases |flags|
  {
    if flags != [] {
      var f, rest := flags[0], Printed(entry, flags[1..]);
      if entry(f) == [] {
        assert Printed(entry, flags) == rest;
        ReadsPrinted(named, name, entry, flags[1..], opts);
      } else {
        var p := entry(f)[0];
        assert entry(f) == [p];
        assert Printed(entry, flags)[1..] == rest;
        assert Names(named, name(f), f);
        ReadsOne(named, p, Flatten(rest), f, opts);
        ReadsPrinted(named, name, entry, flags[1..], opts.With(f, p.1));
      }
    }
  }

  lemma {:induction false} AppliesEach(entry: Flag -> seq<Pair>, flags: seq<Flag>, opts: Options, g: Flag)
    requires forall i, j :: 0 <= i < j < |flags| ==> flags[i] != flags[j]
    ensures Apply(entry, flags, opts).Get(g) == if g in flags && entry(g) != [] then entry(g)[0].1 else opts.Get(g)
    decreases |flags|
  {
    if flags != [] {
      var next := if entry(flags[0]) == [] then opts else opts.With(flags[0], entry(flags[0])[0].1);
      AppliesEach(entry, flags[1..], next, g);
    }
  }

  lemma NamesAreReadable(settings: Options)
    ensures Readable(Named, Name, Entry(settings))
  {
    forall f ensures Names(Named, Name(f), f) {
      NamesAreDistinct(f);
      NoEquals(Name(f));
    }
  }

  lemma AppliedIsKept(stateDir: string, settings: Options)
    ensures Apply(Entry(settings), ORDER, UNSET.With(StateDir, stateDir)) == Kept(stateDir, settings)
  {
    OrderIsDistinct();
    var applied := Apply(Entry(settings), ORDER, UNSET.With(StateDir, stateDir));
    forall f ensures applied.Get(f) == Kept(stateDir, settings).Get(f) {
      InOrder(f);
      AppliesEach(Entry(settings), ORDER, UNSET.With(StateDir, stateDir), f);
    }
    SameSettings(applied, Kept(stateDir, settings));
  }

  /** Reading the printed command line from index 2 recovers the state directory and every non-blank setting
    * verbatim, even one that contains '=' or begins with "--". */
  lemma ParserUndoesPrinter(hookPath: string, stateDir: string, settings: Options)
    requires !Blank(stateDir)
    ensures Meaning(Named, Argv(hookPath, stateDir, settings)[2..], UNSET) == Ok(Kept(stateDir, settings))
  {
    var printed := Flatten(Printed(Entry(settings), ORDER));
    ArgvTail(hookPath, "cdi-hook", "--state-dir", stateDir, printed);
    ReadsArgv(stateDir, settings);
    AppliedIsKept(stateDir, settings);
  }

  lemma ArgvTail(a: string, b: string, c: string, d: string, rest: seq<string>)
    ensures ([a, b, c, d] + rest)[2..] == [c, d] + rest
  {
  }

  lemma ReadsArgv(stateDir: string, settings: Options)
    ensures Meaning(Named, ["--state-dir", stateDir] + Flatten(Printed(Entry(settings), ORDER)), UNSET)
         == Meaning(Named, [], Apply(Entry(settings), ORDER, UNSET.With(StateDir, stateDir)))
  {
    NamesAreReadable(settings);
    ReadsOne(Named, (Name(StateDir), stateDir), Flatten(Printed(Entry(settings), ORDER)), StateDir, UNSET);
    ReadsPrinted(Named, Name, Entry(settings), ORDER, UNSET.With(StateDir, stateDir));
  }

  lemma InOrder(f: Flag)
    ensures f in ORDER <==> f != StateDir
  {
    var i := match f
      case ArtifactBaseURL => 0 case CABundle => 1 case CacheDir => 2 case CentralURL => 3 case ClientName => 4
      case InstallURL => 5 case LibthunderSHA256 => 6 case LibthunderURL => 7 case TelemetryURL => 8 case StateDir => 0;
    assert f != StateDir ==> ORDER[i] == f;
  }
}
