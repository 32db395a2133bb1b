/** The hook's arguments flag by flag: which are accepted, what they set, and what is wrong with the others. */
module Flags {
  import opened Text
  import opened Wrappers
  import opened HookArgs

  /** A setting in one argument, or in two. */
  datatype Setting = Joined(name: string, value: string) | Apart(name: string, value: string)
  {
    predicate Wellformed() { '=' !in name }
    function Args(): seq<string> { if Joined? then [name + "=" + value] else [name, value] }
  }

  function Args(settings: seq<Setting>): seq<string> {
    if settings == [] then [] else settings[0].Args() + Args(settings[1..])
  }

  predicate IsFlag(name: string) { exists f :: name == Name(f) }

  predicate Good(settings: seq<Setting>) { forall s :: s in settings ==> s.Wellformed() && IsFlag(s.name) }

  predicate IsLastFor(settings: seq<Setting>, f: Flag, i: nat) {
    && i < |settings| && settings[i].name == Name(f)
    && forall j :: i < j < |settings| ==> settings[j].name != Name(f)
  }

  /** The options are what was set last of each flag, and blank where nothing was. */
  ghost predicate Says(settings: seq<Setting>, o: Options) {
    && (forall f, i: nat :: IsLastFor(settings, f, i) ==> o.Get(f) == settings[i].value)
    && (forall f :: (forall i: nat :: !IsLastFor(settings, f, i)) ==> o.Get(f) == "")
  }

  /** The arguments are these settings, of flags there are, and come to these options. */
  ghost predicate Spells(args: seq<string>, settings: seq<Setting>, o: Options) {
    Good(settings) && args == Args(settings) && Says(settings, o)
  }

  /** They end in a flag without a value. */
  ghost predicate Dangles(args: seq<string>, settings: seq<Setting>, name: string) {
    Good(settings) && args == Args(settings) + [name] && '=' !in name
  }

  /** The first of them that is no flag is this one. */
  ghost predicate Stumbles(args: seq<string>, settings: seq<Setting>, s: Setting, rest: seq<string>) {
    Good(settings) && args == Args(settings) + s.Args() + rest && s.Wellformed() && !IsFlag(s.name)
  }

  lemma FlagsAreNamed(name: string)
    ensures Named(name).Some? <==> IsFlag(name)
    ensures forall f :: Named(name) == Some(f) <==> name == Name(f)
  {
    forall f ensures Named(name) == Some(f) <==> name == Name(f) { NamesAreDistinct(f); }
    if Named(name).Some? { assert name == Name(Named(name).value); }
  }

  lemma {:induction false} FirstEquals(name: string, value: string)
    requires '=' !in name
    ensures Equals(name + "=" + value) == |name|
  {
    if name == "" {
      assert (name + "=" + value)[0] == '=';
    } else {
      assert (name + "=" + value)[1..] == name[1..] + "=" + value;
      FirstEquals(name[1..], value);
    }
  }

  lemma ReadsSetting(s: Setting, rest: seq<string>, opts: Options)
    requires s.Wellformed()
    ensures Meaning(Named, s.Args() + rest, opts) == Assign(Named, s.name, s.value, rest, opts)
  {
    var args := s.Args() + rest;
    if s.Joined? {
      FirstEquals(s.name, s.value);
      assert args[0] == s.name + "=" + s.value && args[1..] == rest;
      assert args[0][..|s.name|] == s.name && args[0][|s.name| + 1..] == s.value;
    } else {
      NoEquals(s.name);
      assert args[2..] == rest;
    }
  }

  function SetOne(f: Option<Flag>, value: string, opts: Options): Options {
    if f.Some? then opts.With(f.value, value) else opts
  }

  function Set(settings: seq<Setting>, opts: Options): Options {
    if settings == [] then opts
    else Set(settings[1..], SetOne(Named(settings[0].name), settings[0].value, opts))
  }

  lemma SetsOne(f: Option<Flag>, value: string, opts: Options, g: Flag)
    ensures SetOne(f, value, opts).Get(g) == if f == Some(g) then value else opts.Get(g)
  {
  }

  lemma {:induction false} ReadsAll(settings: seq<Setting>, rest: seq<string>, opts: Options)
    requires Good(settings)
    ensures Meaning(Named, Args(settings) + rest, opts) == Meaning(Named, rest, Set(settings, opts))
    decreases |settings|
  {
    if settings == [] {
      assert Args(settings) + rest == rest;
    } else {
      var s, more := settings[0], settings[1..];
      assert s in settings;
      assert Args(settings) + rest == s.Args() + (Args(more) + rest);
      ReadsSetting(s, Args(more) + rest, opts);
      FlagsAreNamed(s.name);
      ReadsAll(more, rest, SetOne(Named(s.name), s.value, opts));
    }
  }

  /** The value set last, or the one from before. */
  function LastValue(settings: seq<Setting>, name: string, before: string): string {
    if settings == [] then before
    else LastValue(settings[1..], name, if settings[0].name == name then settings[0].value else before)
  }

  lemma {:induction false} SetsLast(settings: seq<Setting>, opts: Options, f: Flag)
    requires Good(settings)
    ensures Set(settings, opts).Get(f) == LastValue(settings, Name(f), opts.Get(f))
    decreases |settings|
  {
    if settings != [] {
      var s := settings[0];
      FlagsAreNamed(s.name);
      SetsOne(Named(s.name), s.value, opts, f);
      SetsLast(settings[1..], SetOne(Named(s.name), s.value, opts), f);
    }
  }

  lemma {:induction false} LastValueIs(settings: seq<Setting>, f: Flag, before: string)
    ensures forall i: nat :: IsLastFor(settings, f, i) ==> LastValue(settings, Name(f), before) == settings[i].value
    ensures (forall i: nat :: !IsLastFor(settings, f, i)) ==> LastValue(settings, Name(f), before) == before
    decreases |settings|
  {
    if settings != [] {
      LastValueIs(settings[1..], f, if settings[0].name == Name(f) then settings[0].value else before);
      LastOfMore(settings, f);
      forall i: nat | IsLastFor(settings, f, i) && i > 0 ensures IsLastFor(settings[1..], f, i - 1) {
        assert i - 1 + 1 == i;
      }
    }
  }

  lemma LastOfMore(settings: seq<Setting>, f: Flag)
    requires settings != []
    ensures forall i: nat :: IsLastFor(settings[1..], f, i) <==> IsLastFor(settings, f, i + 1)
    ensures IsLastFor(settings, f, 0) <==>
              settings[0].name == Name(f) && forall i: nat :: !IsLastFor(settings[1..], f, i)
  {
    var more := settings[1..];
    forall i: nat ensures IsLastFor(more, f, i) <==> IsLastFor(settings, f, i + 1) {
      assert i < |more| ==> more[i] == settings[i + 1];
      if IsLastFor(settings, f, i + 1) {
        forall j | i < j < |more| ensures more[j].name != Name(f) { assert more[j] == settings[j + 1]; }
      } else if IsLastFor(more, f, i) {
        forall j | i + 1 < j < |settings| ensures settings[j].name != Name(f) { assert more[j - 1] == settings[j]; }
      }
    }
    if forall i: nat :: !IsLastFor(more, f, i) {
      NoneIfNoLast(more, f);
      forall j | 0 < j < |settings| ensures settings[j].name != Name(f) { assert more[j - 1] == settings[j]; }
    } else {
      var i: nat :| IsLastFor(more, f, i);
      assert settings[i + 1].name == Name(f);
    }
  }

  lemma NoneIfNoLast(settings: seq<Setting>, f: Flag)
    requires forall i: nat :: !IsLastFor(settings, f, i)
    ensures forall j :: 0 <= j < |settings| ==> settings[j].name != Name(f)
  {
    var n := |settings|;
    while n > 0
      invariant 0 <= n <= |settings| && forall j :: n <= j < |settings| ==> settings[j].name != Name(f)
    {
      n := n - 1;
      assert !IsLastFor(settings, f, n);
    }
  }

  lemma SetIsSaid(settings: seq<Setting>)
    requires Good(settings)
    ensures forall o :: Says(settings, o) <==> o == Set(settings, UNSET)
  {
    var all := Set(settings, UNSET);
    forall f ensures all.Get(f) == LastValue(settings, Name(f), "") {
      SetsLast(settings, UNSET, f);
    }
    forall f { LastValueIs(settings, f, ""); }
    forall o | Says(settings, o) ensures o == all {
      forall f ensures o.Get(f) == all.Get(f) {
        if i: nat :| IsLastFor(settings, f, i) {
          assert o.Get(f) == settings[i].value;
        }
      }
      SameSettings(o, all);
    }
  }

  datatype Ending = Complete | Dangling(name: string) | Stumbling(setting: Setting, rest: seq<string>)

  /** All arguments can be read in one of the three ways. */
  lemma {:induction false} Divide(args: seq<string>) returns (settings: seq<Setting>, end: Ending)
    ensures Good(settings)
    ensures end.Complete? ==> args == Args(settings)
    ensures end.Dangling? ==> Dangles(args, settings, end.name)
    ensures end.Stumbling? ==> Stumbles(args, settings, end.setting, end.rest)
    decreases |args|
  {
    settings, end := [], Complete;
    if args != [] {
      var i := Equals(args[0]);
      if i == |args[0]| && |args| == 1 {
        assert args == [] + [args[0]];
        return [], Dangling(args[0]);
      }
      var s := if i < |args[0]| then Joined(args[0][..i], args[0][i + 1..]) else Apart(args[0], args[1]);
      var rest := args[|s.Args()|..];
      assert i < |args[0]| ==> args[0] == args[0][..i] + "=" + args[0][i + 1..];
      assert args == s.Args() + rest;
      if !IsFlag(s.name) {
        assert args == [] + s.Args() + rest;
        return [], Stumbling(s, rest);
      }
      settings, end := Divide(rest);
      PutFirst(s, settings, rest, end);
      settings := [s] + settings;
    }
  }

  lemma PutFirst(s: Setting, settings: seq<Setting>, rest: seq<string>, end: Ending)
    requires Good(settings) && s.Wellformed() && IsFlag(s.name)
    ensures Good([s] + settings)
    ensures rest == Args(settings) ==> s.Args() + rest == Args([s] + settings)
    ensures end.Dangling? && Dangles(rest, settings, end.name) ==>
              Dangles(s.Args() + rest, [s] + settings, end.name)
    ensures end.Stumbling? && Stumbles(rest, settings, end.setting, end.rest) ==>
              Stumbles(s.Args() + rest, [s] + settings, end.setting, end.rest)
  {
    assert ([s] + settings)[1..] == settings;
    assert Args([s] + settings) == s.Args() + Args(settings);
    if end.Dangling? {
      assert s.Args() + (Args(settings) + [end.name]) == s.Args() + Args(settings) + [end.name];
    }
    if end.Stumbling? {
      var last := end.setting.Args();
      assert s.Args() + (Args(settings) + last + end.rest) == s.Args() + Args(settings) + last + end.rest;
    }
  }

  lemma SpelledIsRead(args: seq<string>, settings: seq<Setting>, o: Options)
    requires Spells(args, settings, o)
    ensures Meaning(Named, args, UNSET) == if Blank(o.stateDir) then Err(NeedsStateDir) else Ok(o)
  {
    SetIsSaid(settings);
    ReadsAll(settings, [], UNSET);
    assert Args(settings) + [] == args;
  }

  lemma DanglingIsRead(args: seq<string>, settings: seq<Setting>, name: string)
    requires Dangles(args, settings, name)
    ensures Meaning(Named, args, UNSET) == Err(NeedsValue(name))
  {
    ReadsAll(settings, [name], UNSET);
    NoEquals(name);
  }

  lemma StumblingIsRead(args: seq<string>, settings: seq<Setting>, s: Setting, rest: seq<string>)
    requires Stumbles(args, settings, s, rest)
    ensures Meaning(Named, args, UNSET) == Err(UnknownFlag(s.name))
  {
    assert args == Args(settings) + (s.Args() + rest);
    ReadsAll(settings, s.Args() + rest, UNSET);
    ReadsSetting(s, rest, Set(settings, UNSET));
    FlagsAreNamed(s.name);
  }

  /** What parsing returns, for all arguments: options exactly if the arguments are settings of known flags, each in
    * either form, that come to these options and name a state directory; otherwise the one error there is. */
  lemma ParsesExactly(args: seq<string>)
    ensures var r := Meaning(Named, args, UNSET);
            && (forall o :: r == Ok(o) <==> !Blank(o.stateDir) && exists settings :: Spells(args, settings, o))
            && (r == Err(NeedsStateDir) <==> exists settings, o :: Spells(args, settings, o) && Blank(o.stateDir))
            && (forall name :: r == Err(NeedsValue(name)) <==> exists settings :: Dangles(args, settings, name))
            && (forall name :: r == Err(UnknownFlag(name)) <==>
                  exists settings, s, rest :: Stumbles(args, settings, s, rest) && s.name == name)
  {
    var settings, end := Divide(args);
    if end.Complete? {
      SetIsSaid(settings);
      assert Spells(args, settings, Set(settings, UNSET));
    }
    forall settings, o | Spells(args, settings, o)
      ensures Meaning(Named, args, UNSET) == if Blank(o.stateDir) then Err(NeedsStateDir) else Ok(o)
    {
      SpelledIsRead(args, settings, o);
    }
    forall settings, name | Dangles(args, settings, name)
      ensures Meaning(Named, args, UNSET) == Err(NeedsValue(name))
    {
      DanglingIsRead(args, settings, name);
    }
    forall settings, s, rest | Stumbles(args, settings, s, rest)
      ensures Meaning(Named, args, UNSET) == Err(UnknownFlag(s.name))
    {
      StumblingIsRead(args, settings, s, rest);
    }
  }
}
