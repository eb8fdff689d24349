/**
 The cluster as an object that API calls change in place. Each call takes the next reply from
 `replies`; the metrics registry of the operator's process is kept here too.
 */
module Client {
  import opened Wrappers
  import opened Api
  import opened Objects
  import opened Store
  import opened Machine

  class Cluster {
    var dcs: map<Key, DeviceConfig>
    var nodes: map<string, Labels>
    var children: map<ChildKey, Object>
    var gauge: map<string, nat>
    var settings: Settings
    var nextUid: nat
    var nextRv: nat
    var clock: nat
    var replies: seq<Reply>

    function View(): World
      reads this
    {
      World(dcs, nodes, children, gauge, settings, nextUid, nextRv, clock)
    }

    method NextReply() returns (r: Reply)
      modifies this`replies
      ensures r == Head(old(replies)) && replies == Tail(old(replies))
    {
      if replies == [] {
        r := Ok;
      } else {
        r := replies[0];
        replies := replies[1..];
      }
    }

    method SetGauge(name: string, value: nat)
      modifies this`gauge
      ensures View() == Store.SetGauge(old(View()), name, value)
    {
      gauge := gauge[name := value];
    }

    // ---------- reads ----------

    method GetDeviceConfig(key: Key, cr: DeviceConfigObject) returns (err: Error)
      modifies this`replies, cr
      ensures replies == Tail(old(replies))
      ensures if !Head(old(replies)).Ok? then err == Unavailable && cr.value == old(cr.value)
              else if key in dcs then err == Nil && cr.value == dcs[key]
              else err == NotFound && cr.value == old(cr.value)
    {
      var r := NextReply();
      if !r.Ok? {
        return Unavailable;
      }
      if key !in dcs {
        return NotFound;
      }
      cr.value := dcs[key];
      return Nil;
    }

    method ListDeviceConfigs() returns (items: seq<DeviceConfig>, err: Error)
      modifies this`replies
      ensures replies == Tail(old(replies))
      ensures if Head(old(replies)).Ok? then err == Nil && items == Store.ListDeviceConfigs(View())
              else err == Unavailable && items == []
    {
      var r := NextReply();
      if !r.Ok? {
        return [], Unavailable;
      }
      return Store.ListDeviceConfigs(View()), Nil;
    }

    method ListNodes(selector: Labels) returns (items: seq<Node>, err: Error)
      modifies this`replies
      ensures replies == Tail(old(replies))
      ensures if Head(old(replies)).Ok? then err == Nil && items == SelectNodes(View(), selector)
              else err == Unavailable && items == []
    {
      var r := NextReply();
      if !r.Ok? {
        return [], Unavailable;
      }
      return SelectNodes(View(), selector), Nil;
    }

    /** A failed read leaves the object as it was. */
    method GetChild(ck: ChildKey, o: ChildObject) returns (err: Error)
      modifies this`replies, o
      ensures replies == Tail(old(replies))
      ensures if !Head(old(replies)).Ok? then err == Unavailable && o.Value() == old(o.Value())
              else if ck in children then err == Nil && o.Value() == children[ck]
              else err == NotFound && o.Value() == old(o.Value())
    {
      var r := NextReply();
      if !r.Ok? {
        return Unavailable;
      }
      if ck !in children {
        return NotFound;
      }
      o.Assign(children[ck]);
      return Nil;
    }

    // ---------- writes ----------

    /** Stores `next` over `stored` by the rules of `Store.Commit`. */
    method Save(stored: DeviceConfig, next: DeviceConfig) returns (saved: DeviceConfig)
      modifies this`dcs, this`nextRv
      ensures (View(), saved) == Commit(old(View()), stored, next)
    {
      if next == stored {
        return stored;
      }
      saved := next.(rv := nextRv);
      nextRv := nextRv + 1;
      if saved.deleting && saved.finalizers == [] {
        dcs := dcs - {saved.key};
      } else {
        dcs := dcs[saved.key := saved];
      }
    }

    method Update(cr: DeviceConfigObject) returns (err: Error)
      modifies this`dcs, this`nextRv, this`replies, cr
      ensures replies == Tail(old(replies))
      ensures var (c', res) := Delivered(Head(old(replies)), old(View()), Store.Update(old(View()), old(cr.value)));
              && View() == c'
              && match res
                 case Success(saved) => err == Nil && cr.value == saved
                 case Failure(e) => err == e && err != Nil && cr.value == old(cr.value)
    {
      var r := NextReply();
      if r.Fail? {
        return Unavailable;
      }
      if cr.value.key !in dcs {
        return if r.Ok? then NotFound else Unavailable;
      }
      var stored := dcs[cr.value.key];
      if stored.rv != cr.value.rv {
        return if r.Ok? then Conflict else Unavailable;
      }
      var spec := Encoded(cr.value.spec);
      var generation := stored.generation;
      if spec != stored.spec {
        generation := generation + 1;
      }
      var saved := Save(stored, stored.(spec := spec, finalizers := cr.value.finalizers, generation := generation));
      if r.LostAck? {
        return Unavailable;
      }
      cr.value := saved.(spec := cr.value.spec);
      return Nil;
    }

    method UpdateStatus(cr: DeviceConfigObject) returns (err: Error)
      modifies this`dcs, this`nextRv, this`replies, cr
      ensures replies == Tail(old(replies))
      ensures var (c', res) := Delivered(Head(old(replies)), old(View()), Store.UpdateStatus(old(View()), old(cr.value)));
              && View() == c'
              && match res
                 case Success(saved) => err == Nil && cr.value == saved
                 case Failure(e) => err == e && err != Nil && cr.value == old(cr.value)
    {
      var r := NextReply();
      if r.Fail? {
        return Unavailable;
      }
      if cr.value.key !in dcs {
        return if r.Ok? then NotFound else Unavailable;
      }
      var stored := dcs[cr.value.key];
      if stored.rv != cr.value.rv {
        return if r.Ok? then Conflict else Unavailable;
      }
      var saved := Save(stored, stored.(conditions := cr.value.conditions));
      if r.LostAck? {
        return Unavailable;
      }
      cr.value := saved;
      return Nil;
    }

    method CreateChild(ck: ChildKey, o: ChildObject, versioned: bool) returns (err: Error)
      modifies this`children, this`replies
      ensures replies == Tail(old(replies))
      ensures (View(), err) == DeliveredErr(Head(old(replies)), old(View()),
                                            Store.CreateChild(old(View()), ck, o.Value(), versioned))
    {
      var r := NextReply();
      if r.Fail? {
        return Unavailable;
      }
      if versioned {
        err := Invalid;
      } else if ck in children {
        err := AlreadyExists;
      } else {
        children := children[ck := o.Value()];
        err := Nil;
      }
      if r.LostAck? {
        err := Unavailable;
      }
    }

    method PatchChild(ck: ChildKey, before: Object, o: ChildObject) returns (err: Error)
      modifies this`children, this`replies
      ensures replies == Tail(old(replies))
      ensures (View(), err) == DeliveredErr(Head(old(replies)), old(View()), Store.PatchChild(old(View()), ck, before, o.Value()))
    {
      var r := NextReply();
      if r.Fail? {
        return Unavailable;
      }
      if ck !in children {
        err := NotFound;
      } else {
        children := children[ck := MergePatch(before, o.Value(), children[ck])];
        err := Nil;
      }
      if r.LostAck? {
        err := Unavailable;
      }
    }

    method DeleteChild(ck: ChildKey) returns (err: Error)
      modifies this`children, this`replies
      ensures replies == Tail(old(replies))
      ensures (View(), err) == DeliveredErr(Head(old(replies)), old(View()), Store.DeleteChild(old(View()), ck))
    {
      var r := NextReply();
      if r.Fail? {
        return Unavailable;
      }
      if ck !in children {
        err := NotFound;
      } else if children[ck].finalizers == [] {
        children := children - {ck};
        err := Nil;
      } else {
        children := children[ck := children[ck].(deleting := true)];
        err := Nil;
      }
      if r.LostAck? {
        err := Unavailable;
      }
    }
  }
}
