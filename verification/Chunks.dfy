/** Chunks of bytes, lists of float atoms, and the conversions between them (iemnet_data.c, iemnet.c). */
module Chunks {
  import opened Common

  const AF_INET := 2

  datatype RawChunk = RawChunk(data: seq<byte>, addr: int, port: int, family: int)

  /** No constructor makes a chunk of size below 1. */
  type Chunk = c: RawChunk | |c.data| >= 1 witness RawChunk([0], 0, 0, AF_INET)

  /** A Pd atom: the type tag and the float word are written independently. */
  datatype Tag = Float | Other
  datatype Atom = Atom(tag: Tag, w: real)

  /** C's conversion from float to int cuts towards zero. */
  function Trunc(x: real): int { if x >= 0.0 then x.Floor else -((-x).Floor) }

  /** atom_getint, then the conversion to `unsigned char`. */
  function AtomInt(a: Atom): int { if a.tag.Float? then Trunc(a.w) else 0 }
  function AtomByte(a: Atom): byte { AtomInt(a) % 256 }

  function Bytes(argv: seq<Atom>): seq<byte> { seq(|argv|, i requires 0 <= i < |argv| => AtomByte(argv[i])) }

  function Floats(data: seq<byte>): seq<Atom> {
    seq(|data|, i requires 0 <= i < |data| => Atom(Float, data[i] as real))
  }

  // ---------- constructors ----------

  function CreateEmpty(size: int): (r: Option<Chunk>)
    ensures r.Some? <==> size >= 1
    ensures r.Some? ==> |r.value.data| == size && forall i :: 0 <= i < size ==> r.value.data[i] == 0
    ensures r.Some? ==> r.value.addr == 0 && r.value.port == 0 && r.value.family == AF_INET
  {
    if size < 1 then None else Some(RawChunk(seq(size, _ => 0), 0, 0, AF_INET))
  }

  /** iemnet__chunk_create_data on a buffer whose first `size` bytes are `data`. */
  function CreateData(data: seq<byte>): (r: Option<Chunk>)
    ensures r.Some? <==> data != []
    ensures r.Some? ==> r.value == RawChunk(data, 0, 0, AF_INET)
  {
    var e := CreateEmpty(|data|);
    if e.None? then None else Some(e.value.(data := data))
  }

  /** The address is copied, the family is not: the copy is always AF_INET. */
  function CreateChunk(c: Option<Chunk>): (r: Option<Chunk>)
    ensures r.Some? <==> c.Some?
    ensures r.Some? ==> r.value == c.value.(family := AF_INET)
  {
    if c.None? then None
    else
      Some(CreateData(c.value.data).value.(addr := c.value.addr, port := c.value.port))
  }

  method CreateList(argv: seq<Atom>) returns (r: Option<Chunk>)
    ensures argv == [] <==> r.None?
    ensures r.Some? ==> r.value == RawChunk(Bytes(argv), 0, 0, AF_INET)
  {
    var empty := CreateEmpty(|argv|);
    if empty.None? {
      return None;
    }
    var data := new byte[|argv|](i => 0);
    var i := 0;
    while i < |argv|
      invariant 0 <= i <= |argv|
      invariant forall k :: 0 <= k < i ==> data[k] == AtomByte(argv[k])
    {
      data[i] := AtomByte(argv[i]);
      i := i + 1;
    }
    assert data[..] == Bytes(argv);
    r := Some(empty.value.(data := data[..]));
  }

  // ---------- the reused list ----------

  /** t_iemnet_floatlist: `argc` atoms in use of a buffer of `size`. */
  class FloatList {
    var argv: array<Atom>
    var argc: nat
    var size: nat

    /** Conversion writes floats only, so the tags must already be right, also beyond `argc`. */
    ghost predicate Valid()
      reads this, argv
    {
      argv.Length == size && argc <= size && forall i :: 0 <= i < size ==> argv[i].tag.Float?
    }

    ghost function View(): seq<Atom>
      reads this, argv
      requires Valid()
    {
      argv[..argc]
    }

    /** iemnet__floatlist_create; the buffer comes from malloc with arbitrary contents. */
    constructor (size: nat)
      ensures Valid() && this.size == argc == size && fresh(argv)
      ensures forall i :: 0 <= i < size ==> argv[i] == Atom(Float, 0.0)
    {
      argv := new Atom[size];
      argc, this.size := size, size;
      new;
      Init();
    }

    method Init()
      requires argv.Length == size && argc <= size
      modifies argv
      ensures Valid() && forall i :: 0 <= i < size ==> argv[i] == Atom(Float, 0.0)
    {
      var i := 0;
      while i < size
        invariant 0 <= i <= size
        invariant forall k :: 0 <= k < i ==> argv[k] == Atom(Float, 0.0)
      {
        argv[i] := Atom(Float, 0.0);
        i := i + 1;
      }
    }

    /** iemnet__floatlist_resize: shrinking keeps the buffer, growing takes a new one. */
    method Resize(n: nat)
      requires Valid()
      modifies this, argv
      ensures Valid() && argc == n && size == if n <= old(size) then old(size) else n
      ensures n <= old(size) ==> argv == old(argv) && argv[..] == old(argv[..])
      ensures n > old(size) ==> fresh(argv) && forall i :: 0 <= i < n ==> argv[i] == Atom(Float, 0.0)
    {
      if n <= size {
        argc := n;
        return;
      }
      argv := new Atom[n];
      argc, size := n, n;
      Init();
    }

    /** iemnet__chunk2list on an existing list. */
    method Fill(c: Chunk)
      requires Valid()
      modifies this, argv
      ensures Valid() && View() == Floats(c.data)
      ensures argv == old(argv) || fresh(argv)
    {
      Resize(|c.data|);
      var buffer := argv;
      var i := 0;
      while i < |c.data|
        invariant argv == buffer && 0 <= i <= |c.data| == argc <= size == argv.Length
        invariant forall k :: 0 <= k < size ==> argv[k].tag.Float?
        invariant forall k :: 0 <= k < i ==> argv[k].w == c.data[k] as real
      {
        argv[i] := argv[i].(w := c.data[i] as real);
        i := i + 1;
      }
    }
  }

  /** iemnet__chunk2list: a missing list is created, a missing chunk gives no list. */
  method Chunk2List(c: Option<Chunk>, dest: FloatList?) returns (r: FloatList?)
    requires dest != null ==> dest.Valid()
    modifies if dest == null then {} else {dest, dest.argv}
    ensures c.None? <==> r == null
    ensures r != null ==> r.Valid() && r.View() == Floats(c.value.data)
    ensures r != null && dest != null ==> r == dest && (r.argv == old(r.argv) || fresh(r.argv))
    ensures r != null && dest == null ==> fresh(r) && fresh(r.argv)
  {
    if c.None? {
      return null;
    }
    r := dest;
    if r == null {
      r := new FloatList(|c.value.data|);
    }
    r.Fill(c.value);
  }

  // ---------- output ----------

  function Singles(argv: seq<Atom>): seq<seq<Atom>> { seq(|argv|, i requires 0 <= i < |argv| => [argv[i]]) }

  /** What iemnet__streamout sends to a connected outlet. */
  function Emitted(argv: seq<Atom>, stream: bool): seq<seq<Atom>> { if stream then Singles(argv) else [argv] }

  method Streamout(connected: bool, argv: seq<Atom>, stream: bool) returns (out: seq<seq<Atom>>)
    ensures out == if connected then Emitted(argv, stream) else []
  {
    out := [];
    if !connected {
      return;
    }
    if stream {
      var argc, rest := |argv|, argv;
      while argc > 0
        invariant 0 <= argc <= |argv| && rest == argv[|argv| - argc..]
        invariant out == Singles(argv)[..|argv| - argc]
      {
        argc := argc - 1;
        out := out + [[rest[0]]];
        rest := rest[1..];
      }
    } else {
      out := [argv];
    }
  }

  /** The receiving side of an object: its reused list, its serialize flag and what left its outlet. */
  class Receiver {
    var floatlist: FloatList?
    var serialize: bool
    var output: seq<seq<Atom>>

    ghost predicate Valid()
      reads this, floatlist, if floatlist == null then {} else {floatlist.argv}
    {
      floatlist != null ==> floatlist.Valid()
    }

    constructor ()
      ensures Valid() && serialize && output == [] && floatlist != null && fresh(floatlist) && fresh(floatlist.argv)
    {
      serialize, output := true, [];
      floatlist := new FloatList(1024);
    }

    /** The data branch of the receive callbacks of tcpserver, tcpclient and tcpreceive. */
    method Receive(c: Chunk)
      requires Valid()
      modifies this, floatlist, if floatlist == null then {} else {floatlist.argv}
      ensures Valid() && serialize == old(serialize)
      ensures output == old(output) + Emitted(Floats(c.data), serialize)
      ensures floatlist != null && (floatlist == old(floatlist) || fresh(floatlist))
      ensures fresh(floatlist.argv) || (old(floatlist) != null && floatlist.argv == old(floatlist.argv))
    {
      floatlist := Chunk2List(Some(c), floatlist);
      var out := Streamout(true, floatlist.argv[..floatlist.argc], serialize);
      output := output + out;
    }

    /** Any series of callbacks, all through the one list. */
    method ReceiveAll(cs: seq<Chunk>)
      requires Valid()
      modifies this, floatlist, if floatlist == null then {} else {floatlist.argv}
      ensures Valid() && serialize == old(serialize)
      ensures output == old(output) + AllEmitted(cs, serialize)
    {
      ghost var all := output + AllEmitted(cs, serialize);
      assert cs[0..] == cs;
      var i := 0;
      while i < |cs|
        invariant 0 <= i <= |cs| && Valid() && serialize == old(serialize)
        invariant output + AllEmitted(cs[i..], serialize) == all
        invariant floatlist == old(floatlist) || (floatlist != null && fresh(floatlist))
        invariant floatlist != null ==>
                    fresh(floatlist.argv) || (old(floatlist) != null && floatlist.argv == old(floatlist.argv))
      {
        EmittedNext(output, cs, i, serialize);
        Receive(cs[i]);
        i := i + 1;
      }
      assert output + [] == output;
    }
  }

  function AllEmitted(cs: seq<Chunk>, stream: bool): seq<seq<Atom>> {
    if cs == [] then [] else Emitted(Floats(cs[0].data), stream) + AllEmitted(cs[1..], stream)
  }

  lemma EmittedNext(output: seq<seq<Atom>>, cs: seq<Chunk>, i: nat, stream: bool)
    requires i < |cs|
    ensures output + AllEmitted(cs[i..], stream)
         == (output + Emitted(Floats(cs[i].data), stream)) + AllEmitted(cs[i + 1..], stream)
  {
    assert cs[i..][1..] == cs[i + 1..];
    Regroup(output, Emitted(Floats(cs[i].data), stream), AllEmitted(cs[i + 1..], stream));
  }

  function AllBytes(cs: seq<Chunk>): seq<byte> {
    if cs == [] then [] else cs[0].data + AllBytes(cs[1..])
  }

  // ---------- properties ----------

  predicate ByteAtom(a: Atom) { a.tag.Float? && 0.0 <= a.w < 256.0 && a.w == a.w.Floor as real }

  /** `k` is what C makes of the number in an atom: the whole number next to it on the side of 0; 0 for no number. */
  predicate IntegerPart(a: Atom, k: int) {
    if a.tag.Float? then
      && (0.0 <= k as real <= a.w || a.w <= k as real <= 0.0)
      && -1.0 < a.w - k as real < 1.0
    else k == 0
  }

  /** Every atom has exactly one. */
  lemma IntegerPartExists(a: Atom, j: int, k: int)
    ensures exists i :: IntegerPart(a, i)
    ensures IntegerPart(a, j) && IntegerPart(a, k) ==> j == k
    ensures IntegerPart(Atom(Float, k as real), k)
  {
    assert IntegerPart(a, AtomInt(a));
  }

  /** List to chunk to list reduces modulo 256 ... */
  lemma ListToChunkToList(argv: seq<Atom>, i: nat, k: int)
    requires i < |argv| && IntegerPart(argv[i], k)
    ensures |Bytes(argv)| == |Floats(Bytes(argv))| == |argv|
    ensures Bytes(argv)[i] == k % 256
    ensures Floats(Bytes(argv))[i] == Atom(Float, (k % 256) as real)
  {
    assert IntegerPart(argv[i], AtomInt(argv[i]));
    IntegerPartExists(argv[i], k, AtomInt(argv[i]));
  }

  /** ... which is the identity exactly on lists of bytes. */
  lemma ByteListsSurvive(argv: seq<Atom>)
    ensures Floats(Bytes(argv)) == argv <==> forall i :: 0 <= i < |argv| ==> ByteAtom(argv[i])
  {
    if forall i :: 0 <= i < |argv| ==> ByteAtom(argv[i]) {
      forall i | 0 <= i < |argv| ensures Floats(Bytes(argv))[i] == argv[i] {
        assert ByteAtom(argv[i]) && 0 <= Trunc(argv[i].w) < 256;
      }
    }
    if Floats(Bytes(argv)) == argv {
      forall i | 0 <= i < |argv| ensures ByteAtom(argv[i]) {
        assert argv[i] == Atom(Float, Bytes(argv)[i] as real);
      }
    }
  }

  /** Chunk to list to chunk loses nothing. */
  lemma ChunkToListToChunk(data: seq<byte>)
    ensures Bytes(Floats(data)) == data
  {
    forall i | 0 <= i < |data| ensures Bytes(Floats(data))[i] == data[i] {
      assert Trunc(data[i] as real) == data[i];
    }
  }

  lemma {:induction false} SerializedIsFlat(cs: seq<Chunk>)
    ensures AllEmitted(cs, true) == Singles(Floats(AllBytes(cs)))
  {
    if cs == [] {
    } else {
      SerializedIsFlat(cs[1..]);
      var x, y := cs[0].data, AllBytes(cs[1..]);
      assert Floats(x + y) == Floats(x) + Floats(y);
      assert Singles(Floats(x) + Floats(y)) == Singles(Floats(x)) + Singles(Floats(y));
    }
  }

  /** Serialized output is one message for each byte, in order: a list of that number alone. */
  lemma SerializedMessage(cs: seq<Chunk>, i: nat)
    ensures |AllEmitted(cs, true)| == |AllBytes(cs)|
    ensures i < |AllBytes(cs)| ==> AllEmitted(cs, true)[i] == [Atom(Float, AllBytes(cs)[i] as real)]
  {
    SerializedIsFlat(cs);
  }

  lemma SinglesInjective(a: seq<Atom>, b: seq<Atom>)
    requires Singles(a) == Singles(b)
    ensures a == b
  {
    assert |a| == |Singles(a)| == |b|;
    forall i | 0 <= i < |a| ensures a[i] == b[i] {
      assert Singles(a)[i] == [a[i]] && Singles(b)[i] == [b[i]];
    }
  }

  /** Serialized output depends on the concatenated bytes and on nothing else. */
  lemma SerializedOutputForgetsChunks(cs: seq<Chunk>, ds: seq<Chunk>)
    ensures AllEmitted(cs, true) == AllEmitted(ds, true) <==> AllBytes(cs) == AllBytes(ds)
  {
    SerializedIsFlat(cs);
    SerializedIsFlat(ds);
    if AllEmitted(cs, true) == AllEmitted(ds, true) {
      SinglesInjective(Floats(AllBytes(cs)), Floats(AllBytes(ds)));
      ChunkToListToChunk(AllBytes(cs));
      ChunkToListToChunk(AllBytes(ds));
    }
  }

  predicate Numbers(argv: seq<Atom>, data: seq<byte>) {
    |argv| == |data| && forall j :: 0 <= j < |data| ==> argv[j] == Atom(Float, data[j] as real)
  }

  /** Packet output is one list for each chunk, of the numbers of its bytes, from which the bytes come back. */
  lemma {:induction false} PacketOutputKeepsChunks(cs: seq<Chunk>)
    ensures |AllEmitted(cs, false)| == |cs|
    ensures forall i :: 0 <= i < |cs| ==> Numbers(AllEmitted(cs, false)[i], cs[i].data)
    ensures forall i :: 0 <= i < |cs| ==> Bytes(AllEmitted(cs, false)[i]) == cs[i].data
  {
    if cs == [] {
    } else {
      PacketOutputKeepsChunks(cs[1..]);
      ChunkToListToChunk(cs[0].data);
      forall i | 1 <= i < |cs| ensures AllEmitted(cs, false)[i] == AllEmitted(cs[1..], false)[i - 1] {
      }
      assert forall i :: 1 <= i < |cs| ==> cs[i] == cs[1..][i - 1];
    }
  }
}
