/**
 * The in-memory tag tree that the schematic reader receives from the NBT
 * parser, the reader's error outcomes, and the typed accessors it uses to
 * pull fields out of a compound tag.
 */
module Nbt {

  /** Java's signed integer widths. */
  type Byte = b: int | -0x80 <= b < 0x80
  type Short = s: int | -0x8000 <= s < 0x8000
  type Int32 = i: int | -0x8000_0000 <= i < 0x8000_0000

  /** 2^32, the modulus of Java `int` arithmetic. */
  const IntRange: int := 0x1_0000_0000

  /** A mathematical integer as Java's `int` arithmetic leaves it: reduced modulo 2^32 into the signed range. */
  function Wrap32(v: int): (r: Int32)
    ensures -0x8000_0000 <= v < 0x8000_0000 ==> r == v
    ensures (v - r) % IntRange == 0
  {
    (v + 0x8000_0000) % IntRange - 0x8000_0000
  }

  /** Adding a multiple of 2^32 does not change the wrapped value. */
  lemma WrapShift(v: int, j: int)
    ensures Wrap32(v + j * IntRange) == Wrap32(v)
  {
  }

  /** Two integers that differ by a multiple of 2^32 wrap to the same value. */
  lemma WrapCongruent(a: int, b: int)
    requires (a - b) % IntRange == 0
    ensures Wrap32(a) == Wrap32(b)
  {
    var k := (a - b) / IntRange;
    assert a == b + k * IntRange;
    WrapShift(b, k);
  }

  /** Wrapping an operand of a product or a sum before the operation changes nothing after it. */
  lemma WrapMul(a: int, b: int)
    ensures Wrap32(Wrap32(a) * b) == Wrap32(a * b)
  {
    var k := (a - Wrap32(a)) / IntRange;
    assert a - Wrap32(a) == k * IntRange;
    assert a * b - Wrap32(a) * b == (a - Wrap32(a)) * b;
    assert (a - Wrap32(a)) * b == (k * b) * IntRange;
    WrapCongruent(a * b, Wrap32(a) * b);
  }

  lemma WrapAdd(a: int, b: int)
    ensures Wrap32(Wrap32(a) + b) == Wrap32(a + b)
    ensures Wrap32(a + Wrap32(b)) == Wrap32(a + b)
  {
    WrapCongruent(a + b, Wrap32(a) + b);
    WrapCongruent(a + b, a + Wrap32(b));
  }

  /** `a * b + c + d` evaluated in `int` arithmetic, wrapping after every operation, is the wrapped exact value. */
  lemma WrapNested(a: int, b: int, c: int, d: int)
    ensures Wrap32(Wrap32(Wrap32(Wrap32(a) * b) + Wrap32(c)) + d) == Wrap32(a * b + c + d)
  {
    var ab := a * b;
    WrapMul(a, b);
    var p := Wrap32(Wrap32(a) * b);
    assert p == Wrap32(ab);
    WrapAdd(ab, Wrap32(c));
    WrapAdd(ab, c);
    assert Wrap32(p + Wrap32(c)) == Wrap32(ab + c);
    WrapAdd(ab + c, d);
  }

  datatype Option<+T> = None | Some(value: T)

  /** A node of the tag tree; a compound maps names to tags. */
  datatype Tag =
    | ByteTag(b: Byte)
    | ShortTag(s: Short)
    | IntTag(i: Int32)
    | LongTag(l: int)
    | FloatTag(f: real)
    | DoubleTag(d: real)
    | ByteArrayTag(bytes: seq<Byte>)
    | StringTag(str: string)
    | ListTag(elems: seq<Tag>)
    | CompoundTag(fields: map<string, Tag>)

  /** The root read from the stream: a name and its tag. */
  datatype NamedTag = NamedTag(name: string, tag: Tag)

  /** The tag classes a caller can ask `requireTag`/`getTag` for. */
  datatype Kind = ByteKind | ShortKind | IntKind | LongKind | FloatKind | DoubleKind
                | ByteArrayKind | StringKind | ListKind | CompoundKind

  function KindOf(t: Tag): Kind
  {
    match t
    case ByteTag(_) => ByteKind
    case ShortTag(_) => ShortKind
    case IntTag(_) => IntKind
    case LongTag(_) => LongKind
    case FloatTag(_) => FloatKind
    case DoubleTag(_) => DoubleKind
    case ByteArrayTag(_) => ByteArrayKind
    case StringTag(_) => StringKind
    case ListTag(_) => ListKind
    case CompoundTag(_) => CompoundKind
  }

  /** Why a read is refused; every one of these aborts the whole read. */
  datatype ReadError =
    | NotSchematicRoot(name: string)   // the root tag is not named "Schematic"
    | RootNotCompound                  // the root tag cannot be cast to a compound
    | MissingBlocks                    // the schematic has no "Blocks" entry
    | MissingTag(key: string)          // a required entry is absent
    | WrongTagKind(key: string)        // a required entry has another tag class
    | NotAlpha(materials: string)      // "Materials" is not "Alpha"

  datatype Result<+T> = Ok(value: T) | Err(error: ReadError)
  {
    predicate IsFailure() { Err? }

    function PropagateFailure<U>(): Result<U>
      requires Err?
    {
      Err(error)
    }

    function Extract(): T
      requires Ok?
    {
      value
    }
  }

  /**
   * `requireTag(items, key, kind)`: the entry for `key`, which must exist and
   * be of the requested class; a missing key and a wrong class are distinct errors.
   */
  function RequireTag(items: map<string, Tag>, key: string, kind: Kind): (r: Result<Tag>)
    ensures r.Ok? <==> key in items && KindOf(items[key]) == kind
    ensures r.Ok? ==> r.value == items[key] && KindOf(r.value) == kind
    ensures key !in items ==> r == Err(MissingTag(key))
    ensures key in items && KindOf(items[key]) != kind ==> r == Err(WrongTagKind(key))
  {
    if key !in items then Err(MissingTag(key))
    else if KindOf(items[key]) != kind then Err(WrongTagKind(key))
    else Ok(items[key])
  }

  /** `getTag(items, key, kind)`: the non-failing variant, absent on a missing key or a wrong class. */
  function GetTag(items: map<string, Tag>, key: string, kind: Kind): (r: Option<Tag>)
    ensures r.Some? <==> RequireTag(items, key, kind).Ok?
    ensures r.Some? ==> r.value == RequireTag(items, key, kind).value
  {
    if key in items && KindOf(items[key]) == kind then Some(items[key]) else None
  }

  /** `CompoundTag.getInt`: the int entry, or 0 when it is absent or not an int tag. */
  function GetInt(fields: map<string, Tag>, key: string): (r: Int32)
    ensures GetTag(fields, key, IntKind).None? ==> r == 0
    ensures GetTag(fields, key, IntKind).Some? ==> GetTag(fields, key, IntKind) == Some(IntTag(r))
  {
    if key in fields && fields[key].IntTag? then fields[key].i else 0
  }

  /** `CompoundTag.getString`: the string entry, or "" when it is absent or not a string tag. */
  function GetString(fields: map<string, Tag>, key: string): (r: string)
    ensures GetTag(fields, key, StringKind).None? ==> r == ""
    ensures GetTag(fields, key, StringKind).Some? ==> GetTag(fields, key, StringKind) == Some(StringTag(r))
  {
    if key in fields && fields[key].StringTag? then fields[key].str else ""
  }

  /** `CompoundTag.getListTag`: the list entry's elements, or none when it is absent or not a list. */
  function GetList(fields: map<string, Tag>, key: string): (r: seq<Tag>)
    ensures GetTag(fields, key, ListKind).None? ==> r == []
    ensures GetTag(fields, key, ListKind).Some? ==> GetTag(fields, key, ListKind) == Some(ListTag(r))
  {
    if key in fields && fields[key].ListTag? then fields[key].elems else []
  }
}
