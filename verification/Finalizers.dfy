/** The operator's deletion finalizer in a finalizer list (internal/finalizers). */
module Finalizers {
  import opened Api

  predicate Contains(fs: seq<string>) {
    DELETION_FINALIZER in fs
  }

  function Add(fs: seq<string>, f: string): seq<string> {
    if f in fs then fs else fs + [f]
  }

  /** Removes every occurrence. */
  function Remove(fs: seq<string>, f: string): seq<string> {
    if fs == [] then []
    else if fs[0] == f then Remove(fs[1..], f)
    else [fs[0]] + Remove(fs[1..], f)
  }

  /** Nothing moves, and the finalizer comes last if it is new. */
  lemma AddLaws(fs: seq<string>, f: string)
    ensures fs <= Add(fs, f) && (forall i :: |fs| <= i < |Add(fs, f)| ==> Add(fs, f)[i] == f)
    ensures |Add(fs, f)| == if f in fs then |fs| else |fs| + 1
  {
  }

  /** Entry by entry, in order. */
  lemma {:induction false} RemoveIsPointwise(fs: seq<string>, gs: seq<string>, f: string)
    ensures Remove(fs + gs, f) == Remove(fs, f) + Remove(gs, f)
  {
    if fs == [] {
      assert fs + gs == gs;
    } else {
      RemoveIsPointwise(fs[1..], gs, f);
      assert (fs + gs)[0] == fs[0] && (fs + gs)[1..] == fs[1..] + gs;
    }
  }

  /** Nothing is left exactly if there was nothing else. */
  lemma {:induction false} NothingElse(fs: seq<string>, f: string)
    ensures Remove(fs, f) == [] <==> forall g :: g in fs ==> g == f
  {
    if fs != [] {
      NothingElse(fs[1..], f);
      assert fs[0] in fs && forall g :: g in fs <==> g == fs[0] || g in fs[1..];
      if fs[0] != f { assert Remove(fs, f)[0] == fs[0]; }
    }
  }

  lemma {:induction false} RemoveLaws(fs: seq<string>, f: string)
    ensures forall g :: g in Remove(fs, f) <==> g in fs && g != f
    ensures f !in fs ==> Remove(fs, f) == fs
  {
    if fs != [] {
      RemoveLaws(fs[1..], f);
      assert fs == [fs[0]] + fs[1..];
      assert forall g :: g in fs <==> g == fs[0] || g in fs[1..];
    }
  }

  /** The handshake undone leaves other owners' finalizers exactly as they were. */
  lemma {:induction false} RemoveUndoesAdd(fs: seq<string>)
    requires !Contains(fs)
    ensures Contains(Add(fs, DELETION_FINALIZER))
    ensures Remove(Add(fs, DELETION_FINALIZER), DELETION_FINALIZER) == fs
  {
    AppendThenRemove(fs, DELETION_FINALIZER);
  }

  lemma {:induction false} AppendThenRemove(fs: seq<string>, f: string)
    requires f !in fs
    ensures Remove(fs + [f], f) == fs
  {
    if fs != [] {
      assert (fs + [f])[1..] == fs[1..] + [f];
      AppendThenRemove(fs[1..], f);
    }
  }

  // ---------- in place ----------

  method AddFinalizer(o: DeviceConfigObject, finalizer: string)
    modifies o
    ensures o.value == old(o.value).(finalizers := Add(old(o.value.finalizers), finalizer))
  {
    var f := o.value.finalizers;
    for i := 0 to |f|
      invariant finalizer !in f[..i]
      invariant o.value == old(o.value)
    {
      if f[i] == finalizer {
        return;
      }
    }
    o.value := o.value.(finalizers := f + [finalizer]);
  }

  /** One entry of the scan. */
  lemma OneEntry(done: seq<string>, rest: seq<string>, f: string)
    requires rest != []
    ensures done + Remove(rest, f) == (if rest[0] == f then done else done + [rest[0]]) + Remove(rest[1..], f)
  {
  }

  method RemoveFinalizer(o: DeviceConfigObject, finalizer: string)
    modifies o
    ensures o.value == old(o.value).(finalizers := Remove(old(o.value.finalizers), finalizer))
  {
    hide Remove;
    var f := o.value.finalizers;
    var i := 0;
    assert f[..0] == [] && f[0..] == f;
    while i < |f|
      invariant i <= |f| && o.value == old(o.value)
      invariant Remove(o.value.finalizers, finalizer) == f[..i] + Remove(f[i..], finalizer)
      decreases |f| - i
    {
      ghost var rest := f[i..];
      OneEntry(f[..i], rest, finalizer);
      if f[i] == finalizer {
        f := f[..i] + f[i + 1..];
        assert f[i..] == rest[1..];
      } else {
        i := i + 1;
        assert f[i..] == rest[1..] && f[..i] == f[..i - 1] + [rest[0]];
      }
    }
    assert f[..i] == f && f[i..] == [];
    NothingElse([], finalizer);
    o.value := o.value.(finalizers := f);
  }
}
