/** The crc method of libsum (sum-crc.c). */
module Crc {
  import Blocks
  import opened Chunks
  import opened CrcAlgebra
  import opened CrcDivision
  import opened CrcReflected
  import CksumTable

  const TWO64: nat := 0x1_0000_0000_0000_0000

  const CBLOCK_SIZE: nat := 64

  /** What the name of the method asks for. */
  datatype Options = Options(polynomial: bv32, init: bv32, done: bv32, xorsize: bv32, addsize: bool, rotate: bool)

  /** The options of POSIX cksum. */
  const POSIX: Options := Options(0x04c1_1db7, 0, 0xffff_ffff, 0, true, true)

  /** The options of zip, "crc-0xedb88320-init-done". */
  const ZIP: Options := Options(0xedb8_8320, 0xffff_ffff, 0xffff_ffff, 0, false, false)

  /** Eight steps or turns for one byte. */
  function Byte(o: Options, s: bv32, c: bv8): bv32 {
    if o.rotate then TurnByte(o.polynomial, s, c) else StepByte(o.polynomial, s, c)
  }

  /** The register after the bytes of `data`, one bit at a time. */
  function Bytes(o: Options, s: bv32, data: seq<bv8>): bv32 {
    if data == [] then s else Byte(o, Bytes(o, s, data[..|data| - 1]), data[|data| - 1])
  }

  lemma {:induction false} BytesAppend(o: Options, s: bv32, a: seq<bv8>, b: seq<bv8>)
    ensures Bytes(o, s, a + b) == Bytes(o, Bytes(o, s, a), b)
    decreases |b|
  {
    hide Byte;
    if b == [] {
      assert a + b == a;
    } else {
      assert (a + b)[..|a + b| - 1] == a + b[..|b| - 1];
      BytesAppend(o, s, a, b[..|b| - 1]);
    }
  }

  lemma BytesSnoc(o: Options, s: bv32, a: seq<bv8>, c: bv8)
    ensures Bytes(o, s, a + [c]) == Byte(o, Bytes(o, s, a), c)
  {
    hide Byte;
    assert (a + [c])[..|a|] == a;
  }

  lemma {:induction false} RotatingBytes(o: Options, s: bv32, data: seq<bv8>)
    requires o.rotate
    ensures Bytes(o, s, data) == TurnBytes(o.polynomial, s, data)
  {
    hide TurnByte;
    if data != [] {
      RotatingBytes(o, s, data[..|data| - 1]);
    }
  }

  lemma {:induction false} ReflectedBytes(o: Options, s: bv32, data: seq<bv8>)
    requires !o.rotate
    ensures Bytes(o, s, data) == StepBytes(o.polynomial, s, data)
  {
    hide StepByte;
    if data != [] {
      ReflectedBytes(o, s, data[..|data| - 1]);
    }
  }

  /** What entry `i` of the table must be. */
  function Entry(o: Options, i: bv32): bv32 {
    if o.rotate then Turns(o.polynomial, High(i), 8) else Steps(o.polynomial, i, 8)
  }

  ghost predicate IsTable(o: Options, tab: seq<bv32>) {
    |tab| == 256 && forall i: nat {:trigger tab[i]} :: i < 256 ==> tab[i] == Entry(o, i as bv32)
  }

  /** The table that the program spells out for POSIX cksum. */
  lemma LiteralTable(tab: seq<bv32>)
    requires |tab| == 256 && forall i: nat {:trigger tab[i]} :: i < 256 ==> tab[i] == CksumTable.Literal(i)
    ensures IsTable(POSIX, tab)
  {
    hide CksumTable.Literal, Turns, High;
    forall i: nat | i < 256 ensures tab[i] == Entry(POSIX, i as bv32) {
      CksumTable.LiteralIsComputed(i);
    }
  }

  lemma LowIndexIs(s: bv32, c: bv8)
    ensures LowIndex(s, c) as nat < 256 && (LowIndex(s, c) as nat) as bv32 == LowIndex(s, c)
  {
    hide LowIndex;
    LowIndexSmall(s, c);
    SmallNumber(LowIndex(s, c));
  }

  lemma LowIndexSmall(s: bv32, c: bv8)
    ensures LowIndex(s, c) & 0xff == LowIndex(s, c)
  {
    assert ((s ^ (c as bv32)) & 0xff) & 0xff == (s ^ (c as bv32)) & 0xff;
  }

  lemma HighIndexIs(s: bv32, c: bv8)
    ensures HighIndex(s, c) as nat < 256 && (HighIndex(s, c) as nat) as bv32 == HighIndex(s, c)
  {
    hide HighIndex;
    HighIndexSmall(s, c);
    SmallNumber(HighIndex(s, c));
  }

  lemma HighIndexSmall(s: bv32, c: bv8)
    ensures HighIndex(s, c) & 0xff == HighIndex(s, c)
  {
    assert (((s >> 24) ^ (c as bv32)) & 0xff) & 0xff == ((s >> 24) ^ (c as bv32)) & 0xff;
  }

  lemma SmallNumber(x: bv32)
    requires x & 0xff == x
    ensures x as nat < 256 && (x as nat) as bv32 == x
  {
  }

  /** The bytes of the size, the lowest first and no more than needed. */
  function LengthOctets(n: nat): seq<bv8> {
    if n == 0 then [] else [(n % 256) as bv8] + LengthOctets(n / 256)
  }

  /** The octets are those of the size in base 256, and no more than needed. */
  lemma {:induction false} LengthOctetsMean(n: nat)
    ensures var d := LengthOctets(n);
      && (forall i :: 0 <= i < |d| ==> d[i] == Blocks.Octet(n, i))
      && n < Blocks.Pow256(|d|) && (d != [] ==> Blocks.Pow256(|d| - 1) <= n)
  {
    if n != 0 {
      LengthOctetsMean(n / 256);
      var d := LengthOctets(n);
      forall i | 0 <= i < |d| ensures d[i] == Blocks.Octet(n, i) {
        assert i > 0 ==> d[i] == LengthOctets(n / 256)[i - 1];
      }
    }
  }

  /** The size as it goes into the check: exclusive or with the option, on 64 bits. */
  function SizeWord(size: nat, xorsize: bv32): nat
    requires size < TWO64
  {
    if xorsize == 0 then size else ((size as bv64) ^ (xorsize as bv64)) as nat
  }

  /** On 64 bits it is the exclusive or for every size and option. */
  lemma SizeWordMeans(size: nat, xorsize: bv32)
    requires size < TWO64
    ensures SizeWord(size, xorsize) as bv64 == (size as bv64) ^ (xorsize as bv64)
  {
    if xorsize == 0 {
      NothingToXor(size as bv64);
    } else {
      SameWord((size as bv64) ^ (xorsize as bv64));
    }
  }

  lemma NothingToXor(x: bv64)
    ensures x ^ 0 == x
  {
  }

  lemma SameWord(x: bv64)
    ensures (x as nat) as bv64 == x
  {
  }

  function SizeBytes(o: Options, size: nat): seq<bv8>
    requires size < TWO64
  {
    var n := SizeWord(size, o.xorsize);
    if !o.addsize then []
    else if o.rotate then LengthOctets(n)
    else Blocks.BigEndianBytes(n, 4)
  }

  /** The check of a message. */
  function Check(o: Options, msg: seq<bv8>): bv32 {
    Xor(Bytes(o, o.init, msg + SizeBytes(o, |msg| % TWO64)), o.done)
  }

  /** POSIX.1-2017, XCU, cksum: the remainder of the message and its length, times x^32, by the
      polynomial, complemented. */
  function Cksum(msg: seq<bv8>): bv32 {
    !Divide(0x04c1_1db7, 0, MessageBits(msg + LengthOctets(|msg|)) + seq(32, _ => false))
  }

  lemma CheckIsCksum(msg: seq<bv8>)
    requires |msg| < 0x1_0000_0000_0000_0000
    ensures Check(POSIX, msg) == Cksum(msg)
  {
    hide Divide, MessageBits, Bytes, LengthOctets;
    var all := msg + LengthOctets(|msg|);
    RotatingBytes(POSIX, 0, all);
    BytesRemainder(0x04c1_1db7, all);
    Complement(Divide(0x04c1_1db7, 0, MessageBits(all) + seq(32, _ => false)));
  }

  /** The check of zip, section 8.1.1.6.2 of ITU-T V.42: the complement of the sum of two remainders by
      the polynomial of degree 32, of 32 ones times x^n and of the message of `n` bits times x^32, all
      bits in the order of a serial line. */
  function ZipCheck(msg: seq<bv8>): bv32 {
    !Mirror(Xor(Divide(0x04c1_1db7, 0xffff_ffff, NoBits(8 * |msg|)),
                Divide(0x04c1_1db7, 0, SerialBits(msg) + NoBits(32))))
  }

  lemma CheckIsZip(msg: seq<bv8>)
    ensures Check(ZIP, msg) == ZipCheck(msg)
  {
    hide Divide, SerialBits, Bytes, Xor, Mirror, StepBytes, NoBits;
    assert msg + SizeBytes(ZIP, |msg| % TWO64) == msg;
    ReflectedBytes(ZIP, 0xffff_ffff, msg);
    ReflectedIsDivision(0xedb8_8320, 0xffff_ffff, msg);
    MirroredConstants();
    var r := StepBytes(0xedb8_8320, 0xffff_ffff, msg);
    MirrorTwice(r);
    Complement(r);
  }

  lemma MirroredConstants()
    ensures Mirror(0xedb8_8320) == 0x04c1_1db7 && Mirror(0xffff_ffff) == 0xffff_ffff
  {
  }

  lemma Complement(x: bv32)
    ensures Xor(x, 0xffff_ffff) == !x
  {
    assert x ^ 0xffff_ffff == !x;
  }

  class Engine {
    const options: Options
    var tab: array?<bv32>
    const tabdata: array<bv32>
    var sum: bv32
    var totalSum: bv32
    var size: nat
    ghost var msg: seq<bv8>

    /** The table that lookups go through is there and right. */
    ghost predicate Ready()
      reads this, if tab == null then {} else {tab}
    {
      tab != null && IsTable(options, tab[..])
    }

    ghost predicate Valid()
      reads this, if tab == null then {} else {tab}
    {
      Ready() && sum == Bytes(options, options.init, msg) && size == |msg| % TWO64
    }

    /** `crc_open`, the name being the one of POSIX cksum or asking for `o`. A rotating form under
        another name computes its table but does not set the pointer to it. */
    constructor (posix: bool, o: Options)
      ensures options == if posix then POSIX else o
      ensures tab != null <==> posix || !o.rotate
      ensures tab != null ==> Ready() && fresh(tab)
      ensures !posix ==> IsTable(o, tabdata[..])
      ensures totalSum == 0
    {
      options := if posix then POSIX else o;
      tabdata := new bv32[256](_ => 0);
      tab := null;
      totalSum := 0;
      new;
      if posix {
        tab := new bv32[256](i requires 0 <= i < 256 => CksumTable.Literal(i));
        LiteralTable(tab[..]);
      } else if o.rotate {
        RotatingTable(tabdata, o);
      } else {
        ReflectedTable(tabdata, o);
        tab := tabdata;
      }
    }

    static method RotatingTable(tabdata: array<bv32>, o: Options)
      requires tabdata.Length == 256 && o.rotate
      modifies tabdata
      ensures IsTable(o, tabdata[..])
    {
      hide Turn, Turns, Xor, High, Half, Bit, Left, Small, Steps;
      var polynomial := o.polynomial;
      var p := new bv32[8](_ => 0);
      p[0] := polynomial;
      NoTurn(polynomial, polynomial);
      var i := 1;
      while i < 8
        modifies p
        invariant 1 <= i <= 8
        invariant forall k: nat {:trigger p[k]} :: k < i ==> p[k] == Turns(polynomial, polynomial, k)
      {
        TurnInside(polynomial, polynomial, i - 1);
        OneTurn(polynomial, polynomial, i);
        p[i] := Turn(polynomial, p[i - 1]);
        i := i + 1;
      }
      i := 0;
      while i < 256
        modifies tabdata
        invariant i <= 256
        invariant forall k: nat {:trigger tabdata[k]} :: k < i ==> tabdata[k] == Entry(o, k as bv32)
      {
        var t := EntryLoop(p, polynomial, i);
        tabdata[i] := t;
        i := i + 1;
      }
    }

    /** One entry: the exclusive or of the turned polynomials of the bits of the index. */
    static method EntryLoop(p: array<bv32>, polynomial: bv32, i: nat) returns (t: bv32)
      requires i < 256 && p.Length == 8
      requires forall k: nat {:trigger p[k]} :: k < 8 ==> p[k] == Turns(polynomial, polynomial, k)
      ensures t == Turns(polynomial, High(i as bv32), 8)
    {
      hide Turn, Turns, Xor, High, Half, Bit, Left, Small, Steps;
      ghost var index := i as bv32;
      ghost var goal := Turns(polynomial, High(index), 8);
      t := 0;
      var x := i as bv32;
      IndexIsLeft(i);
      XorZero(goal);
      var j := 0;
      while j < 8
        invariant j <= 8 && x == Left(index, j)
        invariant Xor(t, Turns(polynomial, High(x), 8 + j)) == goal
      {
        LeftStep(index, j);
        TableBit(polynomial, x, j);
        HalfIs(x);
        ghost var rest := Turns(polynomial, High(Half(x)), 9 + j);
        if Bit(x) != 0 {
          XorAssociates(t, p[j], rest);
          t := Xor(t, p[j]);
        } else {
          XorZero(rest);
        }
        x := Half(x);
        j := j + 1;
      }
      AllLeft(index);
      HighZero();
      ZeroStays(polynomial, 16);
      XorZero(t);
    }

    static method ReflectedTable(tabdata: array<bv32>, o: Options)
      requires tabdata.Length == 256 && !o.rotate
      modifies tabdata
      ensures IsTable(o, tabdata[..])
    {
      hide Step, Turns;
      var i := 0;
      while i < 256
        invariant i <= 256
        invariant forall k: nat {:trigger tabdata[k]} :: k < i ==> tabdata[k] == Entry(o, k as bv32)
      {
        var x := i as bv32;
        var j := 0;
        while j < 8
          invariant j <= 8 && Steps(o.polynomial, x, 8 - j) == Steps(o.polynomial, i as bv32, 8)
        {
          x := Step(o.polynomial, x);
          j := j + 1;
        }
        tabdata[i] := x;
        i := i + 1;
      }
    }

    /** `suminit` and `crc_init`. */
    method Init()
      requires Ready()
      modifies `size, `sum, `msg
      ensures Valid() && msg == []
    {
      hide IsTable;
      size := 0;
      sum := options.init;
      msg := [];
    }

    /** The macros `CRC` and `CRCROTATE`. */
    method Lookup(c: bv32, b: bv8) returns (c': bv32)
      requires Ready()
      ensures c' == Byte(options, c, b)
    {
      hide Steps, Turns, Xor, High, LowIndex, HighIndex, StepByte, TurnByte, Shl8, Shr8;
      if options.rotate {
        HighIndexIs(c, b);
        TableTurn(options.polynomial, c, b);
        c' := Xor(Shl8(c), tab[HighIndex(c, b) as nat]);
      } else {
        LowIndexIs(c, b);
        TableStep(options.polynomial, c, b);
        c' := Xor(Shr8(c), tab[LowIndex(c, b) as nat]);
      }
    }

    /** `sumblock` and `crc_block`: whole blocks while more than one is left, and then bytes. */
    method Block(data: array<bv8>, length: nat)
      requires Valid() && length <= data.Length
      modifies `sum, `size, `msg
      ensures Valid() && msg == old(msg) + data[..length]
    {
      hide IsTable, Byte, Bytes;
      var c := sum;
      var b: nat, n: nat := 0, length;
      ghost var start := sum;
      BytesOfNothing(options, start);
      assert data[..0] == [];
      while n > CBLOCK_SIZE
        modifies {}
        invariant b + n == length && c == Bytes(options, start, data[..b])
      {
        var i := 0;
        while i < CBLOCK_SIZE
          modifies {}
          invariant i <= CBLOCK_SIZE && b + n == length + i && b <= length
          invariant c == Bytes(options, start, data[..b])
          decreases CBLOCK_SIZE - i
        {
          assert data[..b + 1] == data[..b] + [data[b]];
          BytesSnoc(options, start, data[..b], data[b]);
          c := Lookup(c, data[b]);
          b := b + 1;
          i := i + 1;
        }
        n := n - CBLOCK_SIZE;
      }
      while b < length
        modifies {}
        invariant b <= length && c == Bytes(options, start, data[..b])
      {
        assert data[..b + 1] == data[..b] + [data[b]];
        BytesSnoc(options, start, data[..b], data[b]);
        c := Lookup(c, data[b]);
        b := b + 1;
      }
      BytesAppend(options, options.init, msg, data[..length]);
      SizeAfter(|msg|, length, size);
      sum := c;
      size := (size + length) % TWO64;
      msg := msg + data[..length];
    }

    /** `crc_done`. */
    method Done()
      requires Valid()
      modifies `sum, `totalSum
      ensures Ready() && sum == Check(options, msg)
      ensures totalSum == Xor(old(totalSum), sum)
    {
      hide IsTable, Byte, Bytes, Xor, Blocks.Octet;
      var c := sum;
      if options.addsize {
        var n := SizeWord(size, options.xorsize);
        if options.rotate {
          c := AddOctets(c, n);
          BytesAppend(options, options.init, msg, LengthOctets(n));
        } else {
          ghost var bytes := Blocks.BigEndianBytes(n, 4);
          BytesOfNothing(options, c);
          assert bytes[..0] == [];
          var i := 0;
          while i < 4
            modifies {}
            invariant i <= 4 && c == Bytes(options, sum, bytes[..i])
          {
            assert bytes[..i + 1] == bytes[..i] + [bytes[i]];
            BytesSnoc(options, sum, bytes[..i], bytes[i]);
            c := Lookup(c, Blocks.Octet(n, 3 - i));
            i := i + 1;
          }
          assert bytes[..4] == bytes;
          BytesAppend(options, options.init, msg, bytes);
        }
      } else {
        assert msg + SizeBytes(options, size) == msg;
      }
      sum := Xor(c, options.done);
      totalSum := Xor(totalSum, sum);
    }

    method AddOctets(c0: bv32, size: nat) returns (c: bv32)
      requires Ready()
      ensures c == Bytes(options, c0, LengthOctets(size))
    {
      hide IsTable, Byte, Bytes;
      c := c0;
      var n := size;
      ghost var done: seq<bv8> := [];
      BytesOfNothing(options, c);
      while n != 0
        invariant done + LengthOctets(n) == LengthOctets(size)
        invariant c == Bytes(options, c0, done)
        decreases n
      {
        var octet := (n % 256) as bv8;
        BytesSnoc(options, c0, done, octet);
        c := Lookup(c, octet);
        done := done + [octet];
        n := n / 256;
      }
      assert done == LengthOctets(size);
    }
  }

  lemma HalfIs(x: bv32)
    ensures Half(x) == x >> 1
  {
  }

  lemma AllLeft(i: bv32)
    ensures Left(i, 8) == 0
  {
  }

  lemma HighZero()
    ensures High(0) == 0
  {
  }

  lemma BytesOfNothing(o: Options, s: bv32)
    ensures Bytes(o, s, []) == s
  {
  }

  lemma SizeAfter(n: nat, k: nat, size: nat)
    requires size == n % TWO64
    ensures (size + k) % TWO64 == (n + k) % TWO64
  {
    var q := n / TWO64;
    var q', r := (size + k) / TWO64, (size + k) % TWO64;
    assert n + k == TWO64 * (q + q') + r;
    assert (n + k) % TWO64 == r;
  }

  /** The name "crc-rotate" asks for the rotating form of the default polynomial, and gets no table. */
  method RotateHasNoTable() returns (engine: Engine)
    ensures engine.options == Options(0xedb8_8320, 0, 0, 0, false, true) && engine.tab == null
  {
    engine := new Engine(false, Options(0xedb8_8320, 0, 0, 0, false, true));
  }

  /** A whole message, in chunks, by a method whose table is there. */
  method Checksum(engine: Engine, chunks: seq<seq<bv8>>) returns (check: bv32)
    requires engine.Ready()
    modifies engine
    ensures check == Check(engine.options, Concat(chunks))
  {
    hide Check, Bytes, IsTable;
    engine.Init();
    ConcatAll(chunks);
    var i := 0;
    while i < |chunks|
      invariant i <= |chunks| && engine.Valid() && engine.msg == Concat(chunks[..i])
    {
      hide Engine.Valid;
      ConcatStep(chunks, i);
      var chunk := chunks[i];
      var data := new bv8[|chunk|](k requires 0 <= k < |chunk| => chunk[k]);
      assert data[..|chunk|] == chunk;
      engine.Block(data, |chunk|);
      i := i + 1;
    }
    engine.Done();
    check := engine.sum;
  }

  /** POSIX cksum of a message in chunks: it does not depend on where the message is cut. */
  method PosixCksum(chunks: seq<seq<bv8>>) returns (check: bv32)
    requires |Concat(chunks)| < 0x1_0000_0000_0000_0000
    ensures check == Cksum(Concat(chunks))
  {
    hide Check, Cksum;
    var engine := new Engine(true, POSIX);
    check := Checksum(engine, chunks);
    CheckIsCksum(Concat(chunks));
  }

  /** The check of zip of a message in chunks. */
  method ZipSum(chunks: seq<seq<bv8>>) returns (check: bv32)
    ensures check == ZipCheck(Concat(chunks))
  {
    hide Check, ZipCheck;
    var engine := new Engine(false, ZIP);
    check := Checksum(engine, chunks);
    CheckIsZip(Concat(chunks));
  }
}
