/** MarshalProto and UnmarshalProto where the source runs loops: over a pair's elements, a
    scope's bindings and the parts of a thunk.  An UnmarshalProto always fills a zero value, so
    its fields are local variables here. */
module ThunkProtos {
  import opened Options
  import opened ThunkTypes
  import opened ThunkCodec
  import R = ThunkRoundTrip

  /** What a loop has so far, onto which the rest goes unless the rest fails. */
  function Onto<T>(done: seq<T>, rest: Option<seq<T>>): Option<seq<T>> {
    if rest.None? then None else Some(done + rest.value)
  }

  lemma {:induction false} OntoNothing<T>(rest: Option<seq<T>>)
    ensures Onto([], rest) == rest
  {
    if rest.Some? {
      assert [] + rest.value == rest.value;
    }
  }

  lemma {:induction false} OntoOneMore<T>(done: seq<T>, x: T, rest: Option<seq<T>>)
    ensures Onto(done, if rest.None? then None else Some([x] + rest.value)) == Onto(done + [x], rest)
  {
    if rest.Some? {
      assert done + ([x] + rest.value) == (done + [x]) + rest.value;
    }
  }

  lemma {:induction false} WalkStops(walk: Walk, i: nat)
    requires i <= |walk| && MarshalWalk(walk[..i]).None?
    ensures MarshalWalk(walk).None?
    decreases |walk| - i
  {
    if i < |walk| {
      R.OneMoreBinding(walk, i);
      WalkStops(walk, i + 1);
    } else {
      assert walk[..i] == walk;
    }
  }

  lemma {:induction false} BindingsStop(bindings: seq<PBinding>, i: nat)
    requires i <= |bindings| && UnmarshalBindings(bindings[..i]).None?
    ensures UnmarshalBindings(bindings).None?
    decreases |bindings| - i
  {
    if i < |bindings| {
      R.OneMoreSet(bindings, i);
      BindingsStop(bindings, i + 1);
    } else {
      assert bindings[..i] == bindings;
    }
  }

  // ---- The loops

  method MarshalValues(vs: seq<Value>) returns (r: Option<seq<PValue>>)
    ensures r == MarshalAll(vs)
  {
    var pvs: seq<PValue> := [];
    assert vs[0..] == vs;
    OntoNothing(MarshalAll(vs));
    for i := 0 to |vs|
      invariant MarshalAll(vs) == Onto(pvs, MarshalAll(vs[i..]))
    {
      assert vs[i..][1..] == vs[i + 1..];
      var pv := MarshalValue(vs[i]);
      if pv.None? {
        return None;
      }
      OntoOneMore(pvs, pv.value, MarshalAll(vs[i + 1..]));
      pvs := pvs + [pv.value];
    }
    assert pvs + [] == pvs;
    return Some(pvs);
  }

  /** Pair.MarshalProto. */
  method MarshalPair(list: Value) returns (r: Option<PValue>)
    requires list.Pair?
    ensures r == MarshalValue(list)
  {
    R.ListIsItsSlice(list);
    var vs := ToSlice(list);
    if vs.None? {
      return None;
    }
    var pvs := MarshalValues(vs.value);
    r := if pvs.None? then None else Some(PArray(pvs.value));
  }

  /** Scope.MarshalProto, and the same loop in Thunk.MarshalProto. */
  method MarshalBindings(walk: Walk) returns (r: Option<seq<PBinding>>)
    ensures r == MarshalWalk(walk)
  {
    var bindings: seq<PBinding> := [];
    var called: set<string> := {};
    for i := 0 to |walk|
      invariant MarshalWalk(walk[..i]) == Some(bindings)
      invariant called == Symbols(walk[..i])
    {
      R.OneMoreBinding(walk, i);
      if walk[i].symbol in called {
        continue;
      }
      called := called + {walk[i].symbol};
      var value := MarshalValue(walk[i].value);
      if value.None? {
        WalkStops(walk, i + 1);
        return None;
      }
      bindings := bindings + [PBinding(walk[i].symbol, value.value)];
    }
    assert walk[..|walk|] == walk;
    return Some(bindings);
  }

  method MarshalEachMount(mounts: seq<ThunkMount>) returns (r: Option<seq<PThunkMount>>)
    ensures r == MarshalMounts(mounts)
  {
    var ms: seq<PThunkMount> := [];
    assert mounts[0..] == mounts;
    OntoNothing(MarshalMounts(mounts));
    for i := 0 to |mounts|
      invariant MarshalMounts(mounts) == Onto(ms, MarshalMounts(mounts[i..]))
    {
      assert mounts[i..][1..] == mounts[i + 1..];
      var m := MarshalMount(mounts[i]);
      if m.None? {
        return None;
      }
      OntoOneMore(ms, m.value, MarshalMounts(mounts[i + 1..]));
      ms := ms + [m.value];
    }
    assert ms + [] == ms;
    return Some(ms);
  }

  method MarshalEachPort(ports: seq<ThunkPort>) returns (r: seq<ThunkPort>)
    ensures r == MarshalPorts(ports)
  {
    r := [];
    for i := 0 to |ports|
      invariant r == MarshalPorts(ports[..i])
    {
      r := r + [ThunkPort(ports[i].name, Int32(ports[i].port))];
    }
    assert ports[..|ports|] == ports;
  }

  /** Thunk.MarshalProto: every part in turn, stopping at the first error. */
  method MarshalProto(t: Thunk) returns (r: Option<PThunk>)
    ensures r == MarshalThunk(t)
  {
    var image := MarshalOptImage(t.image);
    if image.None? {
      return None;
    }
    var args := MarshalValues(t.args);
    if args.None? {
      return None;
    }
    var stdin := MarshalValues(t.stdin);
    if stdin.None? {
      return None;
    }
    var env: Option<seq<PBinding>> := Some([]);
    if t.env.SomeScope? {
      env := MarshalBindings(t.env.walk);
    }
    if env.None? {
      return None;
    }
    var dir := MarshalOptDir(t.dir);
    if dir.None? {
      return None;
    }
    var mounts := MarshalEachMount(t.mounts);
    if mounts.None? {
      return None;
    }
    var labels: Option<seq<PBinding>> := Some([]);
    if t.labels.SomeScope? {
      labels := MarshalBindings(t.labels.walk);
    }
    if labels.None? {
      return None;
    }
    var ports := MarshalEachPort(t.ports);
    return Some(PThunk(
      image.value, t.insecure, args.value, t.useEntrypoint, stdin.value, env.value, dir.value, mounts.value,
      labels.value, ports, t.tls, t.entrypoint, t.clearEntrypoint, t.defaultArgs, t.clearDefaultArgs));
  }

  method UnmarshalValues(ms: seq<PValue>) returns (r: Option<seq<Value>>)
    ensures r == FromProtos(ms)
  {
    var vs: seq<Value> := [];
    assert ms[0..] == ms;
    OntoNothing(FromProtos(ms));
    for i := 0 to |ms|
      invariant FromProtos(ms) == Onto(vs, FromProtos(ms[i..]))
    {
      assert ms[i..][1..] == ms[i + 1..];
      var v := FromProto(ms[i]);
      if v.None? {
        return None;
      }
      OntoOneMore(vs, v.value, FromProtos(ms[i + 1..]));
      vs := vs + [v.value];
    }
    assert vs + [] == vs;
    return Some(vs);
  }

  method UnmarshalEachBinding(bindings: seq<PBinding>) returns (r: Option<Walk>)
    ensures r == UnmarshalBindings(bindings)
  {
    var walk: Walk := [];
    for i := 0 to |bindings|
      invariant UnmarshalBindings(bindings[..i]) == Some(walk)
    {
      R.OneMoreSet(bindings, i);
      var v := FromProto(bindings[i].value);
      if v.None? {
        BindingsStop(bindings, i + 1);
        return None;
      }
      walk := SetIn(walk, bindings[i].symbol, v.value);
    }
    assert bindings[..|bindings|] == bindings;
    return Some(walk);
  }

  method UnmarshalEachMount(ms: seq<PThunkMount>) returns (r: Option<seq<ThunkMount>>)
    ensures r == UnmarshalMounts(ms)
  {
    var mounts: seq<ThunkMount> := [];
    assert ms[0..] == ms;
    OntoNothing(UnmarshalMounts(ms));
    for i := 0 to |ms|
      invariant UnmarshalMounts(ms) == Onto(mounts, UnmarshalMounts(ms[i..]))
    {
      assert ms[i..][1..] == ms[i + 1..];
      var m := UnmarshalMount(ms[i]);
      if m.None? {
        return None;
      }
      OntoOneMore(mounts, m.value, UnmarshalMounts(ms[i + 1..]));
      mounts := mounts + [m.value];
    }
    assert mounts + [] == mounts;
    return Some(mounts);
  }

  method UnmarshalEachPort(ports: seq<ThunkPort>) returns (r: seq<ThunkPort>)
    ensures r == ports
  {
    r := [];
    for i := 0 to |ports|
      invariant r == ports[..i]
    {
      r := r + [ThunkPort(ports[i].name, ports[i].port)];
    }
  }

  /** Thunk.UnmarshalProto: every field in turn, stopping at the first error. */
  method UnmarshalProto(p: PThunk) returns (r: Option<Thunk>)
    ensures r == UnmarshalThunk(p)
  {
    var image := UnmarshalOptImage(p.image);
    if image.None? {
      return None;
    }
    var args := UnmarshalValues(p.args);
    if args.None? {
      return None;
    }
    var stdin := UnmarshalValues(p.stdin);
    if stdin.None? {
      return None;
    }
    var env := NoScope;
    if |p.env| > 0 {
      var walk := UnmarshalEachBinding(p.env);
      if walk.None? {
        return None;
      }
      env := SomeScope(walk.value);
    }
    var dir := UnmarshalOptDir(p.dir);
    if dir.None? {
      return None;
    }
    var mounts := UnmarshalEachMount(p.mounts);
    if mounts.None? {
      return None;
    }
    var labels := NoScope;
    if |p.labels| > 0 {
      var walk := UnmarshalEachBinding(p.labels);
      if walk.None? {
        return None;
      }
      labels := SomeScope(walk.value);
    }
    var ports := UnmarshalEachPort(p.ports);
    return Some(Thunk(
      image.value, p.insecure, args.value, p.useEntrypoint, stdin.value, env, dir.value, mounts.value, labels,
      ports, p.tls, p.entrypoint, p.clearEntrypoint, p.defaultArgs, p.clearDefaultArgs));
  }
}
