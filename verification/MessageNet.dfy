/** The cursor buffer all codecs write to and read from. */
module MessageNet {
  import opened Bytes

  const MAX_LENGTH := 1472

  /** The value of a buffer: its bytes, the read or write head, and the message length. */
  datatype Net = Net(bytes: seq<byte>, pos: nat, length: nat)

  /** An add needs one byte more than it writes: the last byte of a buffer is never filled. */
  predicate Fits(n: Net, size: nat) {
    n.pos + size < |n.bytes|
  }

  function Added(n: Net, val: seq<byte>): Net {
    if Fits(n, |val|)
    then Net(n.bytes[..n.pos] + val + n.bytes[n.pos + |val|..], n.pos + |val|, n.length + |val|)
    else n
  }

  /** What the reads still see. */
  function Rest(n: Net): seq<byte>
    requires n.length <= |n.bytes|
  {
    if n.pos <= n.length then n.bytes[n.pos..n.length] else []
  }

  /** The buffer after the first `i` adds of a list. */
  function AddTo(n: Net, fields: seq<seq<byte>>, i: nat): Net
    requires i <= |fields|
  {
    if i == 0 then n else Added(AddTo(n, fields, i - 1), fields[i - 1])
  }

  function AddAll(n: Net, fields: seq<seq<byte>>): Net {
    AddTo(n, fields, |fields|)
  }

  function Flatten(fields: seq<seq<byte>>): seq<byte> {
    if fields == [] then [] else fields[0] + Flatten(fields[1..])
  }

  lemma {:induction false} FlattenTails(fields: seq<seq<byte>>, n: nat)
    requires n <= |fields|
    ensures forall k :: 0 <= k < n ==> Flatten(fields[k..]) == fields[k] + Flatten(fields[k + 1..])
  {
    forall k | 0 <= k < n ensures Flatten(fields[k..]) == fields[k] + Flatten(fields[k + 1..]) {
      assert fields[k..][1..] == fields[k + 1..];
    }
  }

  lemma {:induction false} FlattenOne(fields: seq<seq<byte>>, val: seq<byte>)
    ensures Flatten(fields + [val]) == Flatten(fields) + val
    decreases |fields|
  {
    if fields == [] {
      assert (fields + [val])[1..] == [];
    } else {
      assert (fields + [val])[1..] == fields[1..] + [val];
      FlattenOne(fields[1..], val);
    }
  }

  /** Those of the first `i` fields that fit one after the other into `size` bytes. */
  function AcceptedTo(fields: seq<seq<byte>>, i: nat, size: nat): seq<seq<byte>>
    requires i <= |fields|
  {
    if i == 0 then []
    else
      var before := AcceptedTo(fields, i - 1, size);
      if |Flatten(before)| + |fields[i - 1]| < size then before + [fields[i - 1]] else before
  }

  function Accepted(fields: seq<seq<byte>>, size: nat): seq<seq<byte>> {
    AcceptedTo(fields, |fields|, size)
  }

  function Fresh(bytes: seq<byte>): Net {
    Net(bytes, 0, 0)
  }

  /** `n` holds `written` and nothing else in a buffer that was `bytes`. */
  predicate Holds(n: Net, written: seq<byte>, bytes: seq<byte>) {
    && n.pos == n.length == |written| < |bytes|
    && n.bytes == written + bytes[|written|..]
  }

  lemma {:induction false} HoldsAccepted(bytes: seq<byte>, fields: seq<seq<byte>>, i: nat)
    requires bytes != [] && i <= |fields|
    ensures Holds(AddTo(Fresh(bytes), fields, i), Flatten(AcceptedTo(fields, i, |bytes|)), bytes)
  {
    if i > 0 {
      HoldsAccepted(bytes, fields, i - 1);
      var val := fields[i - 1];
      FlattenOne(AcceptedTo(fields, i - 1, |bytes|), val);
      var n := AddTo(Fresh(bytes), fields, i - 1);
      var written := Flatten(AcceptedTo(fields, i - 1, |bytes|));
      assert n.bytes[..n.pos] == written;
      if Fits(n, |val|) {
        assert n.bytes[n.pos + |val|..] == bytes[|written| + |val|..];
      }
    }
  }

  /** A fresh buffer holds exactly the concatenation of the adds that succeeded, its head and
      its length are at the end of it and never reach the last byte, and the bytes behind are
      untouched. */
  lemma BufferLaw(bytes: seq<byte>, fields: seq<seq<byte>>)
    requires bytes != []
    ensures Holds(AddAll(Fresh(bytes), fields), Flatten(Accepted(fields, |bytes|)), bytes)
  {
    HoldsAccepted(bytes, fields, |fields|);
  }

  lemma {:induction false} FlattenGrows(fields: seq<seq<byte>>, i: nat)
    requires i <= |fields|
    ensures |Flatten(fields[..i])| <= |Flatten(fields)|
    decreases |fields| - i
  {
    if i < |fields| {
      assert fields[..i + 1] == fields[..i] + [fields[i]];
      FlattenOne(fields[..i], fields[i]);
      FlattenGrows(fields, i + 1);
    } else {
      assert fields[..i] == fields;
    }
  }

  /** A list that fits as a whole is accepted as a whole. */
  lemma {:induction false} AllAcceptedTo(fields: seq<seq<byte>>, i: nat, size: nat)
    requires i <= |fields| && |Flatten(fields)| < size
    ensures AcceptedTo(fields, i, size) == fields[..i]
  {
    if i > 0 {
      AllAcceptedTo(fields, i - 1, size);
      assert fields[..i] == fields[..i - 1] + [fields[i - 1]];
      FlattenOne(fields[..i - 1], fields[i - 1]);
      FlattenGrows(fields, i);
    }
  }

  lemma {:induction false} AcceptedBelow(fields: seq<seq<byte>>, i: nat, size: nat)
    requires i <= |fields|
    ensures AcceptedTo(fields, i, size) == [] || |Flatten(AcceptedTo(fields, i, size))| < size
  {
    if i > 0 {
      AcceptedBelow(fields, i - 1, size);
      FlattenOne(AcceptedTo(fields, i - 1, size), fields[i - 1]);
    }
  }

  /** A list of adds succeeds as a whole exactly if it leaves at least one byte of the buffer
      unused (or is empty). */
  lemma AllAccepted(fields: seq<seq<byte>>, size: nat)
    ensures Accepted(fields, size) == fields <==> fields == [] || |Flatten(fields)| < size
  {
    AcceptedBelow(fields, |fields|, size);
    if |Flatten(fields)| < size {
      AllAcceptedTo(fields, |fields|, size);
      assert fields[..|fields|] == fields;
    }
  }

  /** Reads of the given sizes, each of which fails and yields nothing when too little is left. */
  function ReadAll(data: seq<byte>, sizes: seq<nat>): seq<seq<byte>>
    decreases |sizes|
  {
    if sizes == [] then []
    else if sizes[0] <= |data| then [data[..sizes[0]]] + ReadAll(data[sizes[0]..], sizes[1..])
    else ReadAll(data, sizes[1..])
  }

  function Sizes(fields: seq<seq<byte>>): seq<nat> {
    if fields == [] then [] else [|fields[0]|] + Sizes(fields[1..])
  }

  lemma {:induction false} ReadBackFlatten(fields: seq<seq<byte>>)
    ensures ReadAll(Flatten(fields), Sizes(fields)) == fields
    decreases |fields|
  {
    if fields != [] {
      var data := Flatten(fields);
      assert data[..|fields[0]|] == fields[0] && data[|fields[0]|..] == Flatten(fields[1..]);
      assert Sizes(fields)[1..] == Sizes(fields[1..]);
      ReadBackFlatten(fields[1..]);
    }
  }

  /** Resetting a buffer and reading with the sizes of the accepted fields returns them in order. */
  lemma ReadBack(bytes: seq<byte>, fields: seq<seq<byte>>)
    requires bytes != []
    ensures var n := AddAll(Fresh(bytes), fields).(pos := 0);
      && n.length <= |n.bytes|
      && ReadAll(Rest(n), Sizes(Accepted(fields, |bytes|))) == Accepted(fields, |bytes|)
  {
    BufferLaw(bytes, fields);
    var n := AddAll(Fresh(bytes), fields).(pos := 0);
    assert Rest(n) == Flatten(Accepted(fields, |bytes|));
    ReadBackFlatten(Accepted(fields, |bytes|));
  }

  class MessageNet {
    var buffer: array<byte>
    var pos: nat
    var maxSize: nat
    var length: nat

    ghost predicate Valid()
      reads this
    {
      buffer.Length == maxSize && pos <= maxSize
    }

    ghost function View(): Net
      reads this, buffer
    {
      Net(buffer[..], pos, length)
    }

    constructor (size: nat := MAX_LENGTH)
      ensures Valid() && fresh(buffer)
      ensures maxSize == size && pos == 0 && length == 0
    {
      buffer := new byte[size];
      pos := 0;
      length := 0;
      maxSize := size;
    }

    /** A copy owns its bytes; only the message itself is copied. */
    constructor Copy(msg: MessageNet)
      requires msg.Valid() && msg.length <= msg.maxSize
      ensures Valid() && fresh(buffer) && maxSize == msg.maxSize
      ensures pos == msg.pos && length == msg.length
      ensures Rest(View()) == Rest(msg.View())
    {
      var copy := new byte[msg.maxSize];
      forall i | 0 <= i < msg.length {
        copy[i] := msg.buffer[i];
      }
      buffer := copy;
      pos := msg.pos;
      length := msg.length;
      maxSize := msg.maxSize;
      new;
      assert buffer[..length] == msg.buffer[..length];
      assert pos <= length ==> buffer[pos..length] == buffer[..length][pos..];
      assert pos <= length ==> msg.buffer[pos..length] == msg.buffer[..length][pos..];
    }

    method Add(val: seq<byte>) returns (code: int)
      requires Valid()
      modifies this`pos, this`length, buffer
      ensures Valid()
      ensures View() == Added(old(View()), val)
      ensures code == if Fits(old(View()), |val|) then 0 else -1
    {
      if pos + |val| < maxSize {
        forall i | 0 <= i < |val| {
          buffer[pos + i] := val[i];
        }
        pos := pos + |val|;
        length := length + |val|;
        assert buffer[..] == old(buffer[..pos]) + val + old(buffer[pos + |val|..]);
        return 0;
      } else {
        return -1;
      }
    }

    /** An add whose result code the encoders ignore: number `i` of a list of fields. */
    method AddField(val: seq<byte>, ghost start: Net, ghost fields: seq<seq<byte>>, ghost i: nat)
      requires Valid() && i < |fields| && val == fields[i]
      requires View() == AddTo(start, fields, i)
      modifies this`pos, this`length, buffer
      ensures Valid() && View() == AddTo(start, fields, i + 1)
    {
      var code := Add(val);
    }

    /** Take over bytes that were placed in the buffer from outside. */
    method Update(size: nat)
      requires Valid() && size <= maxSize
      modifies this`pos, this`length
      ensures Valid() && View() == Net(old(View()).bytes, size, size)
    {
      pos := size;
      length := size;
    }

    method Clear()
      requires Valid() && length <= maxSize
      modifies this`pos, this`length, buffer
      ensures Valid() && pos == 0 && length == 0
      ensures forall i :: 0 <= i < buffer.Length ==> buffer[i] == if i < old(length) then 0 else old(buffer[i])
    {
      forall i | 0 <= i < length {
        buffer[i] := 0;
      }
      pos := 0;
      length := 0;
    }

    method Reset()
      requires Valid()
      modifies this`pos
      ensures Valid() && pos == 0 && View() == old(View()).(pos := 0)
    {
      pos := 0;
    }

    /** On success the read bytes leave the front of what is left; on failure nothing moves
        and the target keeps its value. */
    method Read(size: nat, target: seq<byte>) returns (code: int, val: seq<byte>)
      requires Valid() && length <= maxSize
      modifies this`pos
      ensures Valid()
      ensures code == if old(pos) + size <= length then 0 else -1
      ensures code == 0 ==> val == buffer[old(pos)..old(pos) + size] && pos == old(pos) + size
      ensures code != 0 ==> val == target && pos == old(pos)
      ensures old(pos) <= length ==>
        var rest := old(Rest(View()));
        && pos <= length
        && (code == 0 <==> size <= |rest|)
        && (code == 0 ==> val == rest[..size] && Rest(View()) == rest[size..])
        && (code != 0 ==> Rest(View()) == rest)
    {
      if pos + size <= length {
        val := buffer[pos..pos + size];
        pos := pos + size;
        assert buffer[old(pos)..length][..size] == val;
        assert buffer[old(pos)..length][size..] == buffer[pos..length];
        return 0, val;
      } else {
        return -1, target;
      }
    }
  }
}
