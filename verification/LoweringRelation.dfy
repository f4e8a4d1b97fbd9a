/** How a run of the lowered IR relates to a run of the source: the IR environment is the
    source environment with generated bindings interleaved. */
module LoweringRelation {
  import opened Ir
  import opened Values
  import opened IrSemantics
  import opened Source
  import opened Lowering

  /** The bindings the program itself made. */
  function Strip(env: Env): Env {
    if env == [] then []
    else if env[0].name.User? then [env[0]] + Strip(env[1..])
    else Strip(env[1..])
  }

  lemma {:induction false} StripAppend(a: Env, b: Env)
    ensures Strip(a + b) == Strip(a) + Strip(b)
  {
    if a == [] {
      assert a + b == b;
    } else {
      StripAppend(a[1..], b);
      assert (a + b)[0] == a[0] && (a + b)[1..] == a[1..] + b;
    }
  }

  lemma {:induction false} LookupStrip(env: Env, x: string)
    ensures Lookup(Strip(env), User(x)) == Lookup(env, User(x))
  {
    if env != [] {
      LookupStrip(env[1..], x);
      if env[0].name.User? {
        assert Strip(env)[1..] == Strip(env[1..]);
      }
    }
  }

  lemma {:induction false} UpdateStrip(env: Env, x: string, v: Value)
    ensures Strip(Update(env, User(x), v)) == Update(Strip(env), User(x), v)
  {
    if env != [] {
      var u := Update(env, User(x), v);
      assert u[1..] == (if env[0].name == User(x) then env[1..] else Update(env[1..], User(x), v));
      UpdateStrip(env[1..], x, v);
      if env[0].name.User? {
        assert Strip(env)[1..] == Strip(env[1..]);
      }
    }
  }

  /** A binding that only the program's own names could change. */
  predicate SameBut(a: Binding, b: Binding) {
    a.name == b.name && (a.name.Gen? ==> a == b)
  }

  /** env' is env with new bindings in front, none of them an old generated name, and with
      the old generated bindings untouched. */
  predicate Extends(env: Env, env': Env, n: nat) {
    && |env| <= |env'|
    && (forall i :: 0 <= i < |env'| - |env| && env'[i].name.Gen? ==> n <= env'[i].name.index)
    && (forall i :: 0 <= i < |env| ==> SameBut(env[i], env'[|env'| - |env| + i]))
  }

  lemma {:induction false} ExtendsTransitive(a: Env, b: Env, c: Env, n: nat, m: nat)
    requires Extends(a, b, n) && Extends(b, c, m) && n <= m
    ensures Extends(a, c, n)
  {
    forall i | 0 <= i < |c| - |a| && c[i].name.Gen?
      ensures n <= c[i].name.index
    {
      if |c| - |b| <= i {
        assert SameBut(b[i - (|c| - |b|)], c[i]);
      }
    }
    forall i | 0 <= i < |a|
      ensures SameBut(a[i], c[|c| - |a| + i])
    {
      var j := |b| - |a| + i;
      assert SameBut(a[i], b[j]) && SameBut(b[j], c[|c| - |b| + j]);
    }
  }

  lemma ExtendsPush(env: Env, x: Binding, n: nat)
    requires x.name.Gen? ==> n <= x.name.index
    ensures Extends(env, [x] + env, n)
  {
  }

  lemma {:induction false} ExtendsUpdate(env: Env, x: string, v: Value, n: nat)
    ensures Extends(env, Update(env, User(x), v), n)
  {
    UpdateOthers(env, x, v);
  }

  lemma {:induction false} UpdateOthers(env: Env, x: string, v: Value)
    ensures forall i :: 0 <= i < |env| ==> SameBut(env[i], Update(env, User(x), v)[i])
  {
    if env != [] && env[0].name != User(x) {
      UpdateOthers(env[1..], x, v);
      var u := Update(env, User(x), v);
      forall i | 0 <= i < |env|
        ensures SameBut(env[i], u[i])
      {
        if 0 < i {
          assert u[i] == Update(env[1..], User(x), v)[i - 1] && env[i] == env[1..][i - 1];
        }
      }
    }
  }

  lemma {:induction false} LookupSameBut(a: Env, b: Env, g: Name)
    requires g.Gen? && |a| == |b| && forall i :: 0 <= i < |a| ==> SameBut(a[i], b[i])
    ensures Lookup(a, g) == Lookup(b, g)
  {
    if a != [] {
      assert SameBut(a[0], b[0]);
      forall i | 0 <= i < |a[1..]|
        ensures SameBut(a[1..][i], b[1..][i])
      {
        assert SameBut(a[i + 1], b[i + 1]);
      }
      LookupSameBut(a[1..], b[1..], g);
    }
  }

  lemma {:induction false} LookupSkips(a: Env, b: Env, x: Name)
    requires forall i :: 0 <= i < |a| ==> a[i].name != x
    ensures Lookup(a + b, x) == Lookup(b, x)
  {
    if a == [] {
      assert a + b == b;
    } else {
      assert (a + b)[1..] == a[1..] + b;
      LookupSkips(a[1..], b, x);
    }
  }

  /** Old generated names keep their values. */
  lemma {:induction false} LookupExtends(env: Env, env': Env, n: nat, g: Name)
    requires Extends(env, env', n) && g.Gen? && g.index < n
    ensures Lookup(env', g) == Lookup(env, g)
  {
    var k := |env'| - |env|;
    assert env' == env'[..k] + env'[k..];
    LookupSkips(env'[..k], env'[k..], g);
    forall i | 0 <= i < |env|
      ensures SameBut(env[i], env'[k..][i])
    {
      assert SameBut(env[i], env'[k + i]);
    }
    LookupSameBut(env, env'[k..], g);
  }

  lemma {:induction false} StripLength(a: Env, b: Env)
    requires |a| == |b| && forall i :: 0 <= i < |a| ==> a[i].name == b[i].name
    ensures |Strip(a)| == |Strip(b)|
    ensures forall i :: 0 <= i < |Strip(a)| ==> Strip(a)[i].name == Strip(b)[i].name
  {
    if a != [] {
      assert a[0].name == b[0].name;
      assert forall i :: 0 <= i < |a[1..]| ==> a[1..][i].name == a[i + 1].name && b[1..][i].name == b[i + 1].name;
      StripLength(a[1..], b[1..]);
    }
  }

  /** Leaving a block drops the same bindings on both sides. */
  lemma {:induction false} StripLeave(env: Env, env': Env, n: nat)
    requires Extends(env, env', n)
    ensures |Strip(env)| <= |Strip(env')|
    ensures Strip(env'[|env'| - |env|..]) == Strip(env')[|Strip(env')| - |Strip(env)|..]
    ensures Extends(env, env'[|env'| - |env|..], n)
    ensures forall i :: 0 <= i < |Strip(env)| ==>
      Strip(env'[|env'| - |env|..])[i].name == Strip(env)[i].name
  {
    var k := |env'| - |env|;
    assert env' == env'[..k] + env'[k..];
    StripAppend(env'[..k], env'[k..]);
    forall i | 0 <= i < |env|
      ensures SameBut(env[i], env'[k..][i])
    {
      assert SameBut(env[i], env'[k + i]);
    }
    StripLength(env, env'[k..]);
  }

  predicate NamesAre(env: Env, names: seq<string>) {
    |env| == |names| && forall i :: 0 <= i < |env| ==> env[i].name == User(names[i])
  }

  lemma {:induction false} LookupNames(env: Env, names: seq<string>, x: string)
    requires NamesAre(env, names)
    ensures Lookup(env, User(x)).Some? <==> x in names
  {
    if env != [] {
      assert names == [names[0]] + names[1..];
      assert NamesAre(env[1..], names[1..]);
      LookupNames(env[1..], names[1..], x);
    }
  }

  predicate SuffixOf<T(==)>(a: seq<T>, b: seq<T>) {
    |a| <= |b| && b[|b| - |a|..] == a
  }

  predicate ZonesRel(env: Env, zones: seq<Value>, sc: Scope, n: nat) {
    && |zones| == |sc.zones|
    && forall k :: 0 <= k < |zones| ==>
         sc.zones[k].Gen? && sc.zones[k].index < n && Lookup(env, sc.zones[k]) == Some(zones[k])
  }

  predicate Related(senv: Env, ienv: Env, zones: seq<Value>, sc: Scope, n: nat) {
    && Strip(ienv) == senv
    && NamesAre(senv, sc.names)
    && ZonesRel(ienv, zones, sc, n)
  }

  predicate EntryRel(ienv: Env, sc: Scope, n: nat, e: Entry, st: StaticEntry) {
    match e
    case Release(h) =>
      st.ZoneExit? && st.zone.Gen? && st.zone.index < n && Lookup(ienv, st.zone) == Some(h)
    case Pending(d, depth, zoneDepth) =>
      && st.Captured? && st.d == d
      && depth == |st.scope.names| && zoneDepth == |st.scope.zones|
      && SuffixOf(st.scope.names, sc.names) && SuffixOf(st.scope.zones, sc.zones)
  }

  predicate FrameRel(ienv: Env, sc: Scope, n: nat, f: Frame, st: StaticFrame) {
    |f| == |st| && forall i :: 0 <= i < |f| ==> EntryRel(ienv, sc, n, f[i], st[i])
  }

  predicate FramesRel(ienv: Env, sc: Scope, n: nat, fs: seq<Frame>, sts: seq<StaticFrame>) {
    |fs| == |sts| && forall i :: 0 <= i < |fs| ==> FrameRel(ienv, sc, n, fs[i], sts[i])
  }

  /** sc' is sc with more names and zones visible. */
  predicate Inside(sc: Scope, sc': Scope) {
    SuffixOf(sc.names, sc'.names) && SuffixOf(sc.zones, sc'.zones)
  }

  lemma {:induction false} SuffixTransitive<T>(a: seq<T>, b: seq<T>, c: seq<T>)
    requires SuffixOf(a, b) && SuffixOf(b, c)
    ensures SuffixOf(a, c)
  {
    assert c[|c| - |a|..] == c[|c| - |b|..][|b| - |a|..];
  }

  /** Pending cleanups stay valid deeper inside a block and after any statement of it. */
  lemma {:induction false} FramesLater(ienv: Env, ienv': Env, sc: Scope, sc': Scope, n: nat, m: nat, fs: seq<Frame>,
      sts: seq<StaticFrame>)
    requires FramesRel(ienv, sc, n, fs, sts)
    requires Extends(ienv, ienv', n) && n <= m && Inside(sc, sc')
    ensures FramesRel(ienv', sc', m, fs, sts)
  {
    forall i | 0 <= i < |fs|
      ensures FrameRel(ienv', sc', m, fs[i], sts[i])
    {
      assert FrameRel(ienv, sc, n, fs[i], sts[i]);
      forall j | 0 <= j < |fs[i]|
        ensures EntryRel(ienv', sc', m, fs[i][j], sts[i][j])
      {
        assert EntryRel(ienv, sc, n, fs[i][j], sts[i][j]);
        if fs[i][j].Release? {
          LookupExtends(ienv, ienv', n, sts[i][j].zone);
        } else {
          SuffixTransitive(sts[i][j].scope.names, sc.names, sc'.names);
          SuffixTransitive(sts[i][j].scope.zones, sc.zones, sc'.zones);
        }
      }
    }
  }

  lemma {:induction false} ZonesLater(ienv: Env, ienv': Env, zones: seq<Value>, sc: Scope, n: nat, m: nat)
    requires ZonesRel(ienv, zones, sc, n) && Extends(ienv, ienv', n) && n <= m
    ensures ZonesRel(ienv', zones, sc, m)
  {
    forall k | 0 <= k < |zones|
      ensures Lookup(ienv', sc.zones[k]) == Some(zones[k])
    {
      LookupExtends(ienv, ienv', n, sc.zones[k]);
    }
  }

  /** The lowered run ends as the source run did, up to generated bindings. */
  predicate Matches(out: Outcome, ir: Outcome, ienv: Env, n: nat) {
    if out.Next? then
      ir.Next? && ir.trace == out.trace && Strip(ir.env) == out.env && Extends(ienv, ir.env, n)
    else ir == out
  }
}
