/** Block::Iter, moving in both directions over one block. */
module BlockCursors {
  import opened Entries
  import opened BlockFormat
  import opened BlockReaders

  class BlockIter {
    const b: Block
    ghost const s: Option<Source>
    var current: nat
    var restartIndex: nat
    var key: Bytes
    var valueStart: nat
    var valueLength: nat
    var corrupt: bool
    /** The pair it stands on, when the block was built from pairs. */
    ghost var at: nat

    ghost predicate Ok() {
      b.Ok() && (s.Some? ==> b.From(s.value))
    }

    /** restartIndex is the last restart point at or before entry j. */
    ghost predicate Near(l: Layout, j: nat)
      reads this`restartIndex
    {
      restartIndex < |l.starts| && l.starts[restartIndex] <= j &&
          (restartIndex + 1 < |l.starts| ==> j < l.starts[restartIndex + 1])
    }

    /** On pair j of the block. */
    ghost predicate On(l: Layout, j: nat)
      requires l.Shaped() && j < |l.list|
      reads this
    {
      && current == l.offsets[j] && key == l.list[j].key && valueStart + valueLength == l.offsets[j + 1] <= |b.region|
      && b.region[valueStart..valueStart + valueLength] == l.list[j].value
      && Near(l, j)
    }

    ghost predicate Stands()
      requires s.Some? && s.value.layout.Shaped()
      reads this
    {
      var n := |s.value.layout.list|;
      !corrupt && at <= n && (current < |b.region| <==> at < n) && (at < n ==> On(s.value.layout, at))
    }

    ghost predicate Valid()
      reads this
    {
      && Ok() && current <= |b.region| && restartIndex <= b.restarts
      && (current < |b.region| ==> current < valueStart + valueLength <= |b.region|)
      && (s.Some? ==> Stands())
    }

    constructor (b: Block, ghost s: Option<Source>)
      requires b.Ok() && (s.Some? ==> b.From(s.value))
      ensures Valid() && this.b == b && this.s == s && (s.Some? ==> at == |s.value.layout.list|)
    {
      this.b, this.s := b, s;
      current, restartIndex, key, valueStart, valueLength, corrupt := |b.region|, b.restarts, [], 0, 0, false;
      at := if s.Some? then |s.value.layout.list| else 0;
    }

    /** The value no longer points into the block. */
    method Corrupted()
      modifies this
      ensures current == |b.region| && restartIndex == b.restarts && corrupt
    {
      current, restartIndex, key, corrupt := |b.region|, b.restarts, [], true;
      valueStart, valueLength := *, *;
    }

    /** Keeps restartIndex in step, so that Prev can find its way back. */
    method StepRestarts(ghost j: nat)
      requires Ok() && restartIndex <= b.restarts
      requires s.Some? ==> j < |s.value.layout.list| && valueStart + valueLength == s.value.layout.offsets[j + 1]
      requires s.Some? ==> restartIndex < b.restarts && s.value.layout.starts[restartIndex] <= j
      modifies this`restartIndex
      ensures restartIndex <= b.restarts && (s.Some? ==> Near(s.value.layout, j))
    {
      while restartIndex + 1 < b.restarts && b.Restart(restartIndex + 1) < valueStart + valueLength
        invariant restartIndex <= b.restarts
        invariant s.Some? ==> restartIndex < b.restarts && s.value.layout.starts[restartIndex] <= j
        decreases b.restarts - restartIndex
      {
        if s.Some? {
          RestartOrder(b, s.value, restartIndex + 1, j + 1);
        }
        restartIndex := restartIndex + 1;
      }
      if s.Some? && restartIndex + 1 < b.restarts {
        RestartOrder(b, s.value, restartIndex + 1, j + 1);
      }
    }

    method ParseNextEntry(ghost j: nat) returns (more: bool)
      requires Ok() && restartIndex <= b.restarts
      requires s.Some? ==> !corrupt && Poised(s.value, valueStart + valueLength, key, j)
      requires s.Some? && j < |s.value.layout.list| ==>
                 restartIndex < b.restarts && s.value.layout.starts[restartIndex] <= j
      modifies this
      ensures Valid() && more == (current < |b.region|)
      ensures more ==> current == old(valueStart + valueLength)
      ensures s.Some? ==> at == j
    {
      current := valueStart + valueLength;
      at := j;
      if s.Some? {
        OffsetsGrow(b.region, s.value.layout, j, |s.value.layout.list|);
      }
      if current >= |b.region| {
        current, restartIndex := |b.region|, b.restarts;
        return false;
      }
      var ok, next, h := Rebuild(b, current, key, s, j);
      if !ok {
        Corrupted();
        return false;
      }
      key := next;
      valueStart, valueLength := h.body + h.ownLength, h.valueLength;
      StepRestarts(j);
      return true;
    }

    method SeekToRestartPoint(k: nat)
      requires Ok() && k <= b.restarts && (s.Some? ==> k < b.restarts)
      modifies this
      ensures restartIndex <= b.restarts
      ensures s.Some? ==> !corrupt || old(corrupt)
      ensures s.Some? ==> restartIndex == k && s.value.layout.starts[k] <= |s.value.layout.list|
      ensures s.Some? ==> Poised(s.value, valueStart + valueLength, key, s.value.layout.starts[k])
    {
      key := [];
      restartIndex := k;
      var offset := b.Restart(k);
      if s.Some? {
        RestartIs(b, s.value, k);
        OffsetsGrow(b.region, s.value.layout, s.value.layout.starts[k], |s.value.layout.list|);
      }
      if offset > |b.region| {
        Corrupted();
        return;
      }
      valueStart, valueLength := offset, 0;
    }

    method SeekToFirst()
      requires Valid()
      modifies this
      ensures Valid() && (s.Some? ==> at == 0)
    {
      SeekToRestartPoint(0);
      var more := ParseNextEntry(0);
    }

    method Next()
      requires Valid() && current < |b.region|
      modifies this
      ensures Valid() && (s.Some? ==> at == old(at) + 1)
    {
      var more := ParseNextEntry(at + 1);
    }

    /** The first pair at or after the target. */
    method Seek(target: Bytes)
      requires Valid() && (s.Some? ==> b.minLength <= |target|)
      modifies this
      ensures Valid() && (s.Some? ==> IsFirst(s.value.layout.list, s.value.rank, target, at))
    {
      var left := SearchRestarts(b, target, s);
      if left.None? {
        Corrupted();
        return;
      }
      SeekToRestartPoint(left.value);
      ghost var j: nat := if s.Some? then s.value.layout.starts[left.value] else 0;
      while true
        invariant restartIndex <= b.restarts
        invariant s.Some? ==>
                    !corrupt && Poised(s.value, valueStart + valueLength, key, j) && AllBelow(s.value, target, j)
        invariant s.Some? && j < |s.value.layout.list| ==>
                    restartIndex < b.restarts && s.value.layout.starts[restartIndex] <= j
        decreases |b.region| - (valueStart + valueLength)
      {
        var more := ParseNextEntry(j);
        if !more {
          return;
        }
        if b.compare(key, target) >= 0 {
          return;
        }
        j := j + 1;
      }
    }

    method Current() returns (pair: Option<Pair>)
      requires Valid()
      ensures s.Some? ==> pair == if at < |s.value.layout.list| then Some(s.value.layout.list[at]) else None
    {
      pair := if current < |b.region| then Some(Pair(key, b.region[valueStart..valueStart + valueLength])) else None;
    }

    /** Walks on from entry `from` to the last one that begins before `stop`. */
    method WalkUntil(stop: nat, ghost from: nat, ghost last: nat)
      requires Ok() && restartIndex <= b.restarts
      requires s.Some? ==> !corrupt && Poised(s.value, valueStart + valueLength, key, from)
      requires s.Some? ==> restartIndex < b.restarts && s.value.layout.starts[restartIndex] <= from
      requires s.Some? ==> from <= last
      requires s.Some? ==>
                 s.value.layout.list == [] || (last < |s.value.layout.list| && stop == s.value.layout.offsets[last + 1])
      requires s.Some? && s.value.layout.list == [] ==> last == 0
      modifies this
      ensures Valid() && (s.Some? ==> at == last)
    {
      ghost var j: nat := from;
      while true
        invariant restartIndex <= b.restarts
        invariant s.Some? ==> !corrupt && Poised(s.value, valueStart + valueLength, key, j) && j <= last
        invariant s.Some? ==> restartIndex < b.restarts && s.value.layout.starts[restartIndex] <= j
        decreases |b.region| - (valueStart + valueLength)
      {
        var more := ParseNextEntry(j);
        if s.Some? && j < |s.value.layout.list| {
          OffsetsGrow(b.region, s.value.layout, j + 1, last + 1);
        }
        if !more || valueStart + valueLength >= stop {
          return;
        }
        j := j + 1;
      }
    }

    method SeekToLast()
      requires Valid()
      modifies this
      ensures Valid()
      ensures s.Some? ==> at == if s.value.layout.list == [] then 0 else |s.value.layout.list| - 1
    {
      var k := b.restarts - 1;
      SeekToRestartPoint(k);
      ghost var last := if s.Some? && s.value.layout.list != [] then |s.value.layout.list| - 1 else 0;
      WalkUntil(|b.region|, if s.Some? then s.value.layout.starts[k] else 0, last);
    }

    /** The restart points at or after the entry it stands on are passed over;
        false when it stands on the first. */
    method BackUp(original: nat) returns (more: bool)
      requires Ok() && restartIndex <= b.restarts
      requires s.Some? ==>
                 at < |s.value.layout.list| && original == s.value.layout.offsets[at] && Near(s.value.layout, at)
      modifies this`restartIndex
      ensures restartIndex <= b.restarts
      ensures s.Some? ==> more == (0 < at)
      ensures s.Some? && more ==> restartIndex < b.restarts && s.value.layout.starts[restartIndex] < at
    {
      while b.Restart(restartIndex) >= original
        invariant restartIndex <= b.restarts
        invariant s.Some? ==> restartIndex < b.restarts && s.value.layout.starts[restartIndex] <= at
        decreases restartIndex
      {
        if s.Some? {
          RestartOrder(b, s.value, restartIndex, at);
        }
        if restartIndex == 0 {
          return false;
        }
        restartIndex := restartIndex - 1;
      }
      if s.Some? {
        RestartOrder(b, s.value, restartIndex, at);
      }
      return true;
    }

    /** Back one pair, by walking from the restart point before it. */
    method Prev()
      requires Valid() && current < |b.region|
      modifies this
      ensures Valid()
      ensures s.Some? ==> at == if old(at) == 0 then |s.value.layout.list| else old(at) - 1
    {
      var original := current;
      var more := BackUp(original);
      if !more {
        current, restartIndex := |b.region|, b.restarts;
        at := if s.Some? then |s.value.layout.list| else 0;
        return;
      }
      ghost var last: nat := if s.Some? then at - 1 else 0;
      ghost var from: nat := if s.Some? then s.value.layout.starts[restartIndex] else 0;
      SeekToRestartPoint(restartIndex);
      WalkUntil(original, from, last);
    }
  }
}
