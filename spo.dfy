/**
 * The triple value type of the RDF statement indices: a statement is three
 * term identifiers (subject, predicate, object) and a statement type.
 * Statements are ordered by their identifiers alone, compared for equality
 * with their type, decoded from index keys written in one of three key
 * orders, hashed like `Arrays.hashCode(long[])` and printed as text.
 */
module Spo {
  import opened Wrappers

  /** Java's `long` and `int`. */
  type Long = x: int | -0x8000_0000_0000_0000 <= x < 0x8000_0000_0000_0000
  type Int32 = x: int | -0x8000_0000 <= x < 0x8000_0000
  newtype byte = x: int | 0 <= x < 256

  /** The identifier that stands for "no term": an unbound position of a triple pattern. */
  const NULL: Long := 0

  /** The number of positions in a statement key. */
  const N: nat := 3

  datatype StatementEnum = Explicit | Inferred | Axiom

  /** The permutations of the statement indices; `OtherOrder` is any key order this type cannot decode. */
  datatype KeyOrder = SpoOrder | PosOrder | OspOrder | OtherOrder

  /** The fields of a statement, as a value. */
  datatype Triple = Triple(s: Long, p: Long, o: Long, statementType: StatementEnum)

  /** The exceptions of the key constructor: an unknown key order, an exhausted cursor, a value without its type byte. */
  datatype DecodeError = UnsupportedOperation | NoSuchElement | IndexOutOfBounds

  /** An entry of a statement index: its key and its value. */
  datatype Tuple = Tuple(key: seq<byte>, value: seq<byte>)

  /** Compare two longs without subtracting them. */
  function Cmp(a: Long, b: Long): (r: int)
    ensures r == -1 || r == 0 || r == 1
    ensures r < 0 <==> a < b
    ensures r == 0 <==> a == b
  {
    if a < b then -1 else if a > b then 1 else 0
  }

  /** Strict lexicographic order on sequences of equal length: the reference for `compareTo`. */
  predicate LexLess(x: seq<int>, y: seq<int>)
    requires |x| == |y|
  {
    |x| > 0 && (x[0] < y[0] || (x[0] == y[0] && LexLess(x[1..], y[1..])))
  }

  // ---------------------------------------------------------------- keys

  /**
   * The key-order switch of the key constructor: the three longs decoded
   * from the key, `k0, k1, k2`, are the identifiers in key order. Returns
   * `(s, p, o)`, or nothing for an unsupported key order.
   */
  function Permute(order: KeyOrder, k0: Long, k1: Long, k2: Long): (r: Option<(Long, Long, Long)>)
    ensures r.None? <==> order == OtherOrder
  {
    match order
    case SpoOrder => Some((k0, k1, k2))
    case PosOrder => Some((k2, k0, k1))
    case OspOrder => Some((k1, k2, k0))
    case OtherOrder => None
  }

  /** The key positions of `(s, p, o)` in a key order: what an index writes and `Permute` reads back. */
  function KeyOf(order: KeyOrder, s: Long, p: Long, o: Long): (r: Option<(Long, Long, Long)>)
    ensures r.None? <==> order == OtherOrder
  {
    match order
    case SpoOrder => Some((s, p, o))
    case PosOrder => Some((p, o, s))
    case OspOrder => Some((o, s, p))
    case OtherOrder => None
  }

  /** Decoding a key written in a supported order gives back the identifiers. */
  lemma PermuteKeyOf(order: KeyOrder, s: Long, p: Long, o: Long)
    requires order != OtherOrder
    ensures Permute(order, KeyOf(order, s, p, o).value.0, KeyOf(order, s, p, o).value.1, KeyOf(order, s, p, o).value.2)
            == Some((s, p, o))
  {
  }

  /** Writing decoded identifiers in the same order gives back the key. */
  lemma KeyOfPermute(order: KeyOrder, k0: Long, k1: Long, k2: Long)
    requires order != OtherOrder
    ensures KeyOf(order, Permute(order, k0, k1, k2).value.0, Permute(order, k0, k1, k2).value.1, Permute(order, k0, k1, k2).value.2)
            == Some((k0, k1, k2))
  {
  }

  /** A decoded statement is fully bound exactly when no long of its key is `NULL`. */
  lemma PermuteFullyBound(order: KeyOrder, k0: Long, k1: Long, k2: Long)
    requires order != OtherOrder
    ensures var t := Permute(order, k0, k1, k2).value;
            (t.0 != NULL && t.1 != NULL && t.2 != NULL) <==> (k0 != NULL && k1 != NULL && k2 != NULL)
  {
  }

  /** A forward-only cursor over the tuples of a statement index. */
  class TupleCursor {
    const tuples: seq<Tuple>
    var pos: nat

    predicate Valid()
      reads this
    {
      pos <= |tuples|
    }

    constructor (tuples: seq<Tuple>)
      ensures Valid() && this.tuples == tuples && pos == 0
    {
      this.tuples := tuples;
      pos := 0;
    }

    predicate HasNext()
      reads this
    {
      pos < |tuples|
    }

    method Next() returns (t: Tuple)
      requires Valid() && HasNext()
      modifies this`pos
      ensures Valid() && t == tuples[old(pos)] && pos == old(pos) + 1
    {
      t := tuples[pos];
      pos := pos + 1;
    }
  }

  // ---------------------------------------------------------------- text

  function Digit(d: nat): char
    requires d < 10
  {
    "0123456789"[d]
  }

  predicate IsDigit(c: char)
  {
    '0' <= c <= '9'
  }

  function DigitValue(c: char): nat
    requires IsDigit(c)
  {
    (c as int) - ('0' as int)
  }

  /** The decimal digits of `n`, without leading zeros. */
  function NatToString(n: nat): string
    decreases n
  {
    if n < 10 then [Digit(n)] else NatToString(n / 10) + [Digit(n % 10)]
  }

  /** `Long.toString`: a minus sign for negative values, then the decimal digits. */
  function LongToString(x: Long): string
  {
    if x < 0 then "-" + NatToString(-(x as int)) else NatToString(x)
  }

  /** The name of a statement type, as its enum constant is printed. */
  function TypeName(t: StatementEnum): string
  {
    match t
    case Explicit => "Explicit"
    case Inferred => "Inferred"
    case Axiom => "Axiom"
  }

  /** A non-empty string of decimal digits, read back. */
  function ParseNat(t: string): Option<nat>
    decreases |t|
  {
    if t == [] || !IsDigit(t[|t| - 1]) then None
    else if |t| == 1 then Some(DigitValue(t[0]))
    else match ParseNat(t[..|t| - 1])
      case None => None
      case Some(v) => Some(v * 10 + DigitValue(t[|t| - 1]))
  }

  /** An optional minus sign followed by digits, read back as a long. */
  function ParseLong(t: string): Option<Long>
  {
    if |t| > 0 && t[0] == '-' then
      match ParseNat(t[1..])
      case Some(v) => if v <= 0x8000_0000_0000_0000 then Some(-(v as int)) else None
      case None => None
    else
      match ParseNat(t)
      case Some(v) => if v < 0x8000_0000_0000_0000 then Some(v) else None
      case None => None
  }

  function ParseType(t: string): Option<StatementEnum>
  {
    if t == "Explicit" then Some(Explicit)
    else if t == "Inferred" then Some(Inferred)
    else if t == "Axiom" then Some(Axiom)
    else None
  }

  /** The first index of `c` in `t`. */
  function IndexOf(t: string, c: char): (r: Option<nat>)
    ensures r.Some? ==> r.value < |t| && t[r.value] == c && c !in t[..r.value]
    ensures r.None? ==> c !in t
  {
    if t == [] then None
    else if t[0] == c then Some(0)
    else match IndexOf(t[1..], c)
      case None => None
      case Some(i) => assert t[..i + 1] == [t[0]] + t[1..][..i]; Some(i + 1)
  }

  /** The text of a statement: `<s,p,o : Type>`. */
  function Text(t: Triple): string
  {
    "<" + LongToString(t.s) + [','] + TextAfterSubject(t) + ">"
  }

  /** `p,o : Type`: the text after the subject's comma. */
  function TextAfterSubject(t: Triple): string
  {
    LongToString(t.p) + [','] + LongToString(t.o) + " : " + TypeName(t.statementType)
  }

  /** `o : Type`: the object ends at the first space, which must open the separator " : ". */
  function ParseObjectAndType(t: string): Option<(Long, StatementEnum)>
  {
    match IndexOf(t, ' ')
    case None => None
    case Some(m) =>
      if |t| < m + 3 || t[m..m + 3] != " : " then None
      else match (ParseLong(t[..m]), ParseType(t[m + 3..]))
        case (Some(o), Some(ty)) => Some((o, ty))
        case _ => None
  }

  /** `p,o : Type`: the predicate ends at the first comma. */
  function ParsePredicateOn(t: string): Option<(Long, Long, StatementEnum)>
  {
    match IndexOf(t, ',')
    case None => None
    case Some(j) =>
      match (ParseLong(t[..j]), ParseObjectAndType(t[j + 1..]))
      case (Some(p), Some(rest)) => Some((p, rest.0, rest.1))
      case _ => None
  }

  /** Read back the text of a statement, `<s,p,o : Type>`: the subject ends at the first comma. */
  function ParseStatement(str: string): Option<Triple>
  {
    if |str| < 2 || str[0] != '<' || str[|str| - 1] != '>' then None
    else
      var inner := str[1..|str| - 1];
      match IndexOf(inner, ',')
      case None => None
      case Some(i) =>
        match (ParseLong(inner[..i]), ParsePredicateOn(inner[i + 1..]))
        case (Some(s), Some(rest)) => Some(Triple(s, rest.0, rest.1, rest.2))
        case _ => None
  }

  /** Decimal text holds digits only. */
  lemma NatToStringDigits(n: nat)
    ensures |NatToString(n)| > 0
    ensures forall k :: 0 <= k < |NatToString(n)| ==> IsDigit(NatToString(n)[k])
    decreases n
  {
    if n >= 10 {
      NatToStringDigits(n / 10);
    }
  }

  /** Reading the decimal text of `n` gives `n`. */
  lemma {:induction false} ParseNatToString(n: nat)
    ensures ParseNat(NatToString(n)) == Some(n)
    decreases n
  {
    var t := NatToString(n);
    NatToStringDigits(n);
    if n >= 10 {
      ParseNatToString(n / 10);
      NatToStringDigits(n / 10);
      assert t[..|t| - 1] == NatToString(n / 10);
    }
  }

  /** The text of a long holds no comma and no space. */
  lemma LongToStringChars(x: Long)
    ensures ',' !in LongToString(x) && ' ' !in LongToString(x)
  {
    var t := LongToString(x);
    if x < 0 {
      var d := NatToString(-(x as int));
      NatToStringDigits(-(x as int));
      assert t == ['-'] + d;
      forall k | 0 <= k < |t|
        ensures t[k] != ',' && t[k] != ' '
      {
        if k > 0 {
          assert t[k] == d[k - 1];
        }
      }
    } else {
      NatToStringDigits(x);
      forall k | 0 <= k < |t|
        ensures t[k] != ',' && t[k] != ' '
      {
        assert IsDigit(t[k]);
      }
    }
  }

  /** Reading the text of a long gives the long. */
  lemma ParseLongToString(x: Long)
    ensures ParseLong(LongToString(x)) == Some(x)
  {
    var t := LongToString(x);
    if x < 0 {
      var n: nat := -(x as int);
      ParseNatToString(n);
      assert t[0] == '-' && t[1..] == NatToString(n);
    } else {
      ParseNatToString(x);
      NatToStringDigits(x);
      assert t == NatToString(x) && IsDigit(t[0]);
    }
  }

  /** An index holding `c` with no `c` before it is the first index of `c`. */
  lemma {:induction false} IndexOfFirst(t: string, c: char, k: nat)
    requires k < |t| && t[k] == c && c !in t[..k]
    ensures IndexOf(t, c) == Some(k)
  {
    if k > 0 {
      assert t[0] in t[..k];
      assert t[1..][..k - 1] == t[1..k];
      assert forall x :: x in t[1..k] ==> x in t[..k];
      IndexOfFirst(t[1..], c, k - 1);
    }
  }

  /** The first `c` in `a + [c] + b` is right after `a` when `a` holds none. */
  lemma IndexOfAfter(a: string, c: char, b: string)
    requires c !in a
    ensures IndexOf(a + [c] + b, c) == Some(|a|)
  {
    var t := a + [c] + b;
    assert t[..|a|] == a;
    IndexOfFirst(t, c, |a|);
  }

  // ---------------------------------------------------------------- hash

  /** Wrap an integer to a Java `int`, two's complement: add or subtract 2^32 until it is in range. */
  function Wrap32(x: int): Int32
    decreases if x < -0x8000_0000 then -x else if x >= 0x8000_0000 then x else 0
  {
    if x < -0x8000_0000 then Wrap32(x + 0x1_0000_0000)
    else if x >= 0x8000_0000 then Wrap32(x - 0x1_0000_0000)
    else x
  }

  /** Wrapping keeps the value modulo 2^32: it is `int` overflow. */
  lemma {:induction false} Wrap32Congruent(x: int)
    ensures (Wrap32(x) - x) % 0x1_0000_0000 == 0
    decreases if x < -0x8000_0000 then -x else if x >= 0x8000_0000 then x else 0
  {
    var m := 0x1_0000_0000;
    if x < -0x8000_0000 {
      Wrap32Congruent(x + m);
      assert Wrap32(x) - x == (Wrap32(x + m) - (x + m)) + m;
    } else if x >= 0x8000_0000 {
      Wrap32Congruent(x - m);
      assert Wrap32(x) - x == (Wrap32(x - m) - (x - m)) - m;
    }
  }

  function Pow2(n: nat): nat
  {
    if n == 0 then 1 else 2 * Pow2(n - 1)
  }

  lemma {:induction false} Pow2Add(a: nat, b: nat)
    ensures Pow2(a + b) == Pow2(a) * Pow2(b)
  {
    if a > 0 {
      Pow2Add(a - 1, b);
      assert Pow2(a + b) == 2 * Pow2(a - 1 + b);
    }
  }

  lemma Pow2Of32()
    ensures Pow2(32) == 0x1_0000_0000
  {
    assert Pow2(8) == 256;
    Pow2Add(8, 8);
    Pow2Add(16, 16);
  }

  /** Bitwise exclusive or of the low `n` bits of `a` and `b`. */
  function Xor(a: nat, b: nat, n: nat): (r: nat)
    ensures r < Pow2(n)
  {
    if n == 0 then 0 else (a % 2 + b % 2) % 2 + 2 * Xor(a / 2, b / 2, n - 1)
  }

  /** Exclusive or with zero leaves a value of `n` bits unchanged. */
  lemma {:induction false} XorZero(a: nat, n: nat)
    requires a < Pow2(n)
    ensures Xor(a, 0, n) == a
  {
    if n > 0 {
      XorZero(a / 2, n - 1);
    }
  }

  /**
   * `(int) (e ^ (e >>> 32))`, the hash of one long: the exclusive or of the
   * low and the high 32 bits of its two's complement, read as an `int`.
   */
  function LongHash(e: Long): Int32
  {
    var u := if e < 0 then (e as int) + 0x1_0000_0000_0000_0000 else e as int;
    var low := Xor(u % 0x1_0000_0000, u / 0x1_0000_0000, 32);
    Pow2Of32();
    if low >= 0x8000_0000 then low - 0x1_0000_0000 else low
  }

  /** A long in `[0, 2^31)` hashes to itself: its high half is zero. */
  lemma SmallLongHash(e: Long)
    requires 0 <= e < 0x8000_0000
    ensures LongHash(e) == e
  {
    var u := e as int;
    assert u % 0x1_0000_0000 == u && u / 0x1_0000_0000 == 0;
    Pow2Of32();
    XorZero(u, 32);
  }

  /** `Arrays.hashCode(long[])`: start at 1 and fold `31 * result + hash(e)` in `int` arithmetic. */
  function ArraysHash(a: seq<Long>): Int32
  {
    if a == [] then 1 else Wrap32(31 * ArraysHash(a[..|a| - 1]) + LongHash(a[|a| - 1]))
  }

  /** The hash of three longs, unrolled. */
  lemma ArraysHash3(x: Long, y: Long, z: Long)
    ensures ArraysHash([x, y, z]) == Wrap32(31 * Wrap32(31 * Wrap32(31 + LongHash(x)) + LongHash(y)) + LongHash(z))
  {
    var a, b, c := [x, y, z], [x, y], [x];
    assert a[..2] == b && b[..1] == c && c[..0] == [];
    assert ArraysHash(c) == Wrap32(31 * 1 + LongHash(x));
    assert ArraysHash(b) == Wrap32(31 * ArraysHash(c) + LongHash(y));
    assert ArraysHash(a) == Wrap32(31 * ArraysHash(b) + LongHash(z));
  }

  /** The value the hash of the statement `(1, 2, 3)` should have. */
  lemma ArraysHashExample()
    ensures ArraysHash([1, 2, 3]) == 30817
  {
    SmallLongHash(1);
    SmallLongHash(2);
    SmallLongHash(3);
    ArraysHash3(1, 2, 3);
    assert Wrap32(32) == 32 && Wrap32(994) == 994 && Wrap32(30817) == 30817;
  }

  // ---------------------------------------------------------------- statements

  /** A statement: the three term identifiers and the statement type. */
  class SPO {
    const s: Long
    const p: Long
    const o: Long
    const statementType: StatementEnum
    /** When set, the statement is written with exactly its current type (used to downgrade Explicit to Inferred). */
    var override: bool
    /** The cached hash code; 0 while not computed. */
    var hashCode: Int32

    /** The cache holds nothing or the hash of the identifiers. */
    predicate Valid()
      reads this
    {
      hashCode == 0 || hashCode == ArraysHash(Ids())
    }

    constructor (s: Long, p: Long, o: Long, statementType: StatementEnum)
      ensures Valid() && Fields() == Triple(s, p, o, statementType) && !override && hashCode == 0
    {
      this.s := s;
      this.p := p;
      this.o := o;
      this.statementType := statementType;
      override := false;
      hashCode := 0;
    }

    /**
     * The key constructor: fetch the next tuple, decode the longs at key
     * offsets 0, 8 and 16, permute them by the key order, then decode the
     * type from the first byte of the value. `decodeLong` and `decodeType`
     * stand for the key builder and `StatementEnum.decode`. Like the other
     * constructor it leaves the hash cache empty.
     */
    static method FromKey(order: KeyOrder, itr: TupleCursor, decodeLong: (seq<byte>, nat) -> Long,
                          decodeType: byte -> StatementEnum)
      returns (r: Result<SPO, DecodeError>)
      requires itr.Valid()
      requires itr.HasNext() ==> |itr.tuples[itr.pos].key| >= 8 * N
      modifies itr
      ensures itr.Valid()
      ensures !old(itr.HasNext()) ==> itr.pos == old(itr.pos) && r == Failure(NoSuchElement)
      ensures old(itr.HasNext()) ==> itr.pos == old(itr.pos) + 1
      ensures old(itr.HasNext()) ==> (r == Failure(UnsupportedOperation) <==> order == OtherOrder)
      ensures old(itr.HasNext()) && order != OtherOrder ==>
        (r == Failure(IndexOutOfBounds) <==> |itr.tuples[old(itr.pos)].value| == 0)
      ensures r.Success? ==>
        && old(itr.HasNext())
        && var tuple := itr.tuples[old(itr.pos)];
           var k0, k1, k2 := decodeLong(tuple.key, 0), decodeLong(tuple.key, 8), decodeLong(tuple.key, 16);
           var ids := Permute(order, k0, k1, k2).value;
           && |tuple.value| > 0
           && fresh(r.value) && r.value.Valid() && !r.value.override && r.value.hashCode == 0
           && r.value.Fields() == Triple(ids.0, ids.1, ids.2, decodeType(tuple.value[0]))
           && (r.value.IsFullyBound() <==> k0 != NULL && k1 != NULL && k2 != NULL)
    {
      if !itr.HasNext() {
        return Failure(NoSuchElement);
      }
      var tuple := itr.Next();
      var key := tuple.key;
      var k0 := decodeLong(key, 0);
      var k1 := decodeLong(key, 8);
      var k2 := decodeLong(key, 8 + 8);
      match Permute(order, k0, k1, k2)
      case None =>
        r := Failure(UnsupportedOperation);
      case Some(ids) =>
        if |tuple.value| == 0 {
          return Failure(IndexOutOfBounds);
        }
        var statementType := decodeType(tuple.value[0]);
        PermuteFullyBound(order, k0, k1, k2);
        var spo := new SPO(ids.0, ids.1, ids.2, statementType);
        r := Success(spo);
    }

    function Fields(): Triple
    {
      Triple(s, p, o, statementType)
    }

    function Ids(): seq<Long>
    {
      [s, p, o]
    }

    predicate IsExplicit()
    {
      statementType == Explicit
    }

    predicate IsInferred()
    {
      statementType == Inferred
    }

    predicate IsAxiom()
    {
      statementType == Axiom
    }

    /** True iff no position is `NULL`: the statement is not a triple pattern with an unbound position. */
    predicate IsFullyBound()
      ensures IsFullyBound() <==> NULL !in Ids()
    {
      s != NULL && p != NULL && o != NULL
    }

    /**
     * The `s:p:o` order on term identifiers; the type is not compared. The
     * same object compares equal to itself without looking at the fields.
     */
    function CompareTo(other: SPO): (r: int)
      ensures r == -1 || r == 0 || r == 1
      ensures r == 0 <==> Ids() == other.Ids()
    {
      if other == this then 0
      else
        var ret := Cmp(s, other.s);
        if ret != 0 then ret
        else
          var ret2 := Cmp(p, other.p);
          if ret2 != 0 then ret2 else Cmp(o, other.o)
    }

    /** The same object, or the same identifiers and the same type. */
    function Equals(other: SPO): (r: bool)
      ensures r <==> Fields() == other.Fields()
    {
      other == this || (s == other.s && p == other.p && o == other.o && statementType == other.statementType)
    }

    /** The text of the statement: `<s,p,o : Type>`. */
    function ToString(): (r: string)
      ensures ParseStatement(r) == Some(Fields())
    {
      ParseText(Fields());
      Text(Fields())
    }

    /** `Arrays.hashCode` of `[s, p, o]`, by the loop over the identifiers. */
    method ComputeHash() returns (h: Int32)
      ensures h == ArraysHash(Ids())
    {
      var a := [s, p, o];
      var result: Int32 := 1;
      for i := 0 to |a|
        invariant result == ArraysHash(a[..i])
      {
        var element := a[i];
        var elementHash := LongHash(element);
        assert a[..i + 1][..i] == a[..i];
        result := Wrap32(31 * result + elementHash);
      }
      assert a[..|a|] == a;
      h := result;
    }

    /**
     * `hashCode()` as written: when the cache is empty the hash is computed
     * into a local and dropped, and the cache field is returned. Nothing
     * ever assigns the cache, so this is 0 for every statement built by
     * the constructors.
     */
    method HashCodeAsWritten() returns (h: Int32)
      ensures h == hashCode
    {
      if hashCode == 0 {
        var result := ComputeHash();
      }
      h := hashCode;
    }

    /** `hashCode()` as intended: compute `Arrays.hashCode([s, p, o])` once and keep it in the cache. */
    method HashCode() returns (h: Int32)
      requires Valid()
      modifies this`hashCode
      ensures Valid() && h == ArraysHash(Ids())
      ensures hashCode == h
    {
      if hashCode == 0 {
        hashCode := ComputeHash();
      }
      h := hashCode;
    }
  }

  // ---------------------------------------------------------------- properties

  /** The lexicographic order on three-element sequences, position by position. */
  lemma LexLess3(x: seq<int>, y: seq<int>)
    requires |x| == 3 && |y| == 3
    ensures LexLess(x, y) <==> x[0] < y[0] || (x[0] == y[0] && (x[1] < y[1] || (x[1] == y[1] && x[2] < y[2])))
  {
    var x1, y1 := x[1..], y[1..];
    var x2, y2 := x1[1..], y1[1..];
    assert LexLess(x2[1..], y2[1..]) == false;
    assert LexLess(x2, y2) <==> x[2] < y[2];
    assert LexLess(x1, y1) <==> x[1] < y[1] || (x[1] == y[1] && LexLess(x2, y2));
  }

  /** `compareTo` is the strict lexicographic order on `[s, p, o]`. */
  lemma CompareIsLex(a: SPO, b: SPO)
    ensures a.CompareTo(b) < 0 <==> LexLess(a.Ids(), b.Ids())
    ensures a.CompareTo(b) > 0 <==> LexLess(b.Ids(), a.Ids())
  {
    LexLess3(a.Ids(), b.Ids());
    LexLess3(b.Ids(), a.Ids());
  }

  /** Swapping the operands negates the comparison. */
  lemma CompareAntisymmetric(a: SPO, b: SPO)
    ensures a.CompareTo(b) == -b.CompareTo(a)
  {
  }

  /** The order is transitive. */
  lemma CompareTransitive(a: SPO, b: SPO, c: SPO)
    requires a.CompareTo(b) < 0 && b.CompareTo(c) < 0
    ensures a.CompareTo(c) < 0
  {
    CompareIsLex(a, b);
    CompareIsLex(b, c);
    CompareIsLex(a, c);
  }

  /** The statement type plays no part in the order. */
  lemma CompareIgnoresType(a: SPO, b: SPO, c: SPO)
    requires a.Ids() == b.Ids()
    ensures a.CompareTo(c) == b.CompareTo(c)
  {
  }

  /** Equal statements compare as 0 ... */
  lemma EqualsImpliesCompareZero(a: SPO, b: SPO)
    requires a.Equals(b)
    ensures a.CompareTo(b) == 0
  {
  }

  /** ... but two statements that differ only in type compare as 0 and are not equal. */
  lemma CompareZeroNotEquals(a: SPO, b: SPO)
    requires a.Ids() == b.Ids() && a.statementType != b.statementType
    ensures a.CompareTo(b) == 0 && !a.Equals(b)
  {
  }

  /** Exactly one of the type predicates holds. */
  lemma ExactlyOneType(a: SPO)
    ensures a.IsExplicit() || a.IsInferred() || a.IsAxiom()
    ensures !(a.IsExplicit() && a.IsInferred()) && !(a.IsExplicit() && a.IsAxiom()) && !(a.IsInferred() && a.IsAxiom())
  {
  }

  /** Equal statements have the same intended hash. */
  lemma HashConsistentWithEquals(a: SPO, b: SPO)
    requires a.Equals(b)
    ensures ArraysHash(a.Ids()) == ArraysHash(b.Ids())
  {
  }

  lemma ParseObjectAndTypeText(o: Long, ty: StatementEnum)
    ensures ParseObjectAndType(LongToString(o) + " : " + TypeName(ty)) == Some((o, ty))
  {
    var os, ts := LongToString(o), TypeName(ty);
    var t := os + " : " + ts;
    LongToStringChars(o);
    ParseLongToString(o);
    assert t == os + [' '] + (": " + ts);
    IndexOfAfter(os, ' ', ": " + ts);
    assert t[..|os|] == os && t[|os|..|os| + 3] == " : " && t[|os| + 3..] == ts;
  }

  lemma ParsePredicateOnText(x: Triple)
    ensures ParsePredicateOn(TextAfterSubject(x)) == Some((x.p, x.o, x.statementType))
  {
    var p, o, ty := x.p, x.o, x.statementType;
    var ps, rest := LongToString(p), LongToString(o) + " : " + TypeName(ty);
    var t := TextAfterSubject(x);
    assert t == ps + [','] + rest;
    LongToStringChars(p);
    ParseLongToString(p);
    IndexOfAfter(ps, ',', rest);
    assert t[..|ps|] == ps && t[|ps| + 1..] == rest;
    ParseObjectAndTypeText(o, ty);
  }

  /** The text of a statement is its subject, a comma and the rest, in angle brackets. */
  lemma TextShape(x: Triple)
    ensures var str := Text(x);
      && |str| >= 2 && str[0] == '<' && str[|str| - 1] == '>'
      && str[1..|str| - 1] == LongToString(x.s) + [','] + TextAfterSubject(x)
  {
    var inner := LongToString(x.s) + [','] + TextAfterSubject(x);
    assert Text(x) == "<" + inner + ">";
  }

  /** The text of a statement reads back as the statement. */
  lemma ParseText(x: Triple)
    ensures ParseStatement(Text(x)) == Some(x)
  {
    var ss, rest := LongToString(x.s), TextAfterSubject(x);
    var inner := ss + [','] + rest;
    TextShape(x);
    LongToStringChars(x.s);
    ParseLongToString(x.s);
    IndexOfAfter(ss, ',', rest);
    assert inner[..|ss|] == ss && inner[|ss| + 1..] == rest;
    ParsePredicateOnText(x);
  }

  /** Two statements with the same text have the same fields. */
  lemma ToStringInjective(a: SPO, b: SPO)
    requires a.ToString() == b.ToString()
    ensures a.Fields() == b.Fields()
  {
  }

  /**
   * For every statement the constructors build, `hashCode()` as written
   * returns 0, while the hash it computes and drops is `Arrays.hashCode` of
   * the identifiers.
   */
  method HashCodeAsWrittenIsZero(s: Long, p: Long, o: Long, statementType: StatementEnum)
    returns (asWritten: Int32, dropped: Int32)
    ensures asWritten == 0 && dropped == ArraysHash([s, p, o])
  {
    var spo := new SPO(s, p, o, statementType);
    asWritten := spo.HashCodeAsWritten();
    dropped := spo.ComputeHash();
  }

  /** The hash the source computes and drops for `(1, 2, 3)` is 30817, while its as-written `hashCode()` returns 0. */
  method HashCodeGap() returns (asWritten: Int32, intended: Int32)
    ensures asWritten == 0 && intended == 30817
  {
    var spo := new SPO(1, 2, 3, Explicit);
    asWritten := spo.HashCodeAsWritten();
    intended := spo.ComputeHash();
    ArraysHashExample();
  }
}
