/**
 * The plugin's message codec on Android. It extends the base message codec
 * with three reserved type bytes and recognises the three domain records by
 * the keys a map holds.
 *
 * The base codec is abstract here: a message is a sequence of tokens, where
 * `Scalar(v)` is the base encoding of a non-container value, `ListHeader(n)`
 * starts a list whose n elements follow, `MapHeader(n)` starts a map that
 * matches no domain shape, followed by n key-value pairs, and `Tag(b)` is one
 * reserved type byte. As in the base codec, list elements and map keys and
 * values are written and read back through this codec, so a record nested
 * anywhere in a value is tagged too.
 */
module PigeonCodec {
  import opened Wrappers
  import opened Values
  import opened Messages

  // ---------------------------------------------------------------------------
  // Type bytes. Kotlin's `129.toByte()` is a signed byte; `stream.write(int)`
  // writes its low eight bits, and the reader compares signed bytes again.

  /** Kotlin's `Int.toByte()`: wrap into the signed range -128..127. */
  function ToByte(x: int): (b: int)
    ensures -128 <= b < 128
    ensures (x - b) % 256 == 0
  {
    (x + 128) % 256 - 128
  }

  /** `OutputStream.write(int)`: the byte on the wire is the low eight bits. */
  function WireByte(b: int): (w: int)
    ensures 0 <= w < 256
    ensures (b - w) % 256 == 0
  {
    b % 256
  }

  const TYPE_SCAN_OPTIONS: int := ToByte(129)
  const TYPE_SCAN_RESULT: int := ToByte(130)
  const TYPE_COMPRESSION_RESULT: int := ToByte(131)

  /** The reserved type bytes go out as 129, 130 and 131 and read back as the constants. */
  lemma TypeBytesReserved()
    ensures WireByte(TYPE_SCAN_OPTIONS) == 129
    ensures WireByte(TYPE_SCAN_RESULT) == 130
    ensures WireByte(TYPE_COMPRESSION_RESULT) == 131
    ensures ToByte(WireByte(TYPE_SCAN_OPTIONS)) == TYPE_SCAN_OPTIONS
    ensures ToByte(WireByte(TYPE_SCAN_RESULT)) == TYPE_SCAN_RESULT
    ensures ToByte(WireByte(TYPE_COMPRESSION_RESULT)) == TYPE_COMPRESSION_RESULT
    ensures TYPE_SCAN_OPTIONS != TYPE_SCAN_RESULT
    ensures TYPE_SCAN_RESULT != TYPE_COMPRESSION_RESULT
    ensures TYPE_SCAN_OPTIONS != TYPE_COMPRESSION_RESULT
  {
  }

  // ---------------------------------------------------------------------------
  // Shapes: which domain record a map is taken for.

  datatype Shape = ScanResultShape | ScanOptionsShape | CompressionResultShape | NoShape

  /** The `when` of `writeValue`: the first matching pair of keys decides. */
  function ShapeOf(m: map<string, Value>): Shape {
    if "imagePaths" in m && "success" in m then ScanResultShape
    else if "autoCompress" in m && "compressionQuality" in m then ScanOptionsShape
    else if "outputPath" in m && "originalSize" in m then CompressionResultShape
    else NoShape
  }

  /** The positional field order of each record. */
  function FieldOrder(s: Shape): seq<string> {
    match s
    case ScanResultShape => ["imagePaths", "success", "errorMessage"]
    case ScanOptionsShape => ["autoCompress", "compressionQuality"]
    case CompressionResultShape => ["outputPath", "originalSize", "compressedSize", "success", "errorMessage"]
    case NoShape => []
  }

  function TypeByte(s: Shape): int {
    match s
    case ScanResultShape => TYPE_SCAN_RESULT
    case ScanOptionsShape => TYPE_SCAN_OPTIONS
    case CompressionResultShape => TYPE_COMPRESSION_RESULT
    case NoShape => 0
  }

  /** The shape a reserved type byte announces, if any (`readValueOfType`'s `when`). */
  function ShapeOfType(b: int): Shape {
    if b == TYPE_SCAN_OPTIONS then ScanOptionsShape
    else if b == TYPE_SCAN_RESULT then ScanResultShape
    else if b == TYPE_COMPRESSION_RESULT then CompressionResultShape
    else NoShape
  }

  // ---------------------------------------------------------------------------
  // Writing.

  datatype Token =
    | Tag(wire: int)
    | Scalar(v: Value)
    | ListHeader(size: nat)
    | MapHeader(size: nat)

  /** The keys of a map in its iteration order, which the model leaves unspecified. */
  ghost function KeyOrder(keys: set<string>): (order: seq<string>)
    ensures |order| == |keys|
    ensures forall k :: k in order <==> k in keys
  {
    if keys == {} then []
    else
      var k :| k in keys;
      [k] + KeyOrder(keys - {k})
  }

  /** `writeValue`: the tokens a value is written as. */
  ghost function Write(v: Value): seq<Token>
    decreases v, 2, 0
  {
    match v
    case List(items) => [ListHeader(|items|)] + WriteItems(v, 0)
    case Map(m) =>
      var s := ShapeOf(m);
      if s == NoShape then [MapHeader(|m|)] + WriteEntries(m, KeyOrder(m.Keys))
      else [Tag(WireByte(TypeByte(s))), ListHeader(|FieldOrder(s)|)] + WriteFields(m, FieldOrder(s))
    case _ => [Scalar(v)]
  }

  /** The entries of an unshaped map under `keys`, each key (a string, so a scalar)
      followed by its value written through `Write`. */
  ghost function WriteEntries(m: map<string, Value>, keys: seq<string>): seq<Token>
    decreases Map(m), 1, |keys|
  {
    if keys == [] then []
    else
      (if keys[0] in m then [Scalar(Str(keys[0]))] + Write(m[keys[0]]) else [])
      + WriteEntries(m, keys[1..])
  }

  /** The elements `items[i..]` of a list, each written through `Write`. */
  ghost function WriteItems(v: Value, i: nat): seq<Token>
    requires v.List? && i <= |v.items|
    decreases v, 1, |v.items| - i
  {
    if i == |v.items| then [] else Write(v.items[i]) + WriteItems(v, i + 1)
  }

  /** The values of `keys` in `m`, in order, each written through `Write`; a missing key is null. */
  ghost function WriteFields(m: map<string, Value>, keys: seq<string>): seq<Token>
    decreases Map(m), 1, |keys|
  {
    if keys == [] then []
    else (if keys[0] in m then Write(m[keys[0]]) else [Scalar(Null)]) + WriteFields(m, keys[1..])
  }

  /** `listOf(value[k0], value[k1], ...)`: the positional list a domain record is sent as. */
  function FieldValues(m: map<string, Value>, keys: seq<string>): (vs: seq<Value>)
    ensures |vs| == |keys|
    ensures forall i :: 0 <= i < |keys| ==> vs[i] == Field(m, keys[i])
  {
    seq(|keys|, i requires 0 <= i < |keys| => Field(m, keys[i]))
  }

  // ---------------------------------------------------------------------------
  // Reading.

  datatype Fault =
    | Underflow          // the buffer ended before the value did
    | MessageCorrupted   // a type byte neither this codec nor the base codec knows, or bytes left over
    | NotAList           // `readValue(buffer) as List<*>` failed
    | IndexOutOfBounds   // `list[k]` past the end of a too-short list
    | NonStringKey       // a map key that is not a string, which these values cannot hold

  /** `readValue`: one value from the front of `ts`, and what is left. */
  function Read(ts: seq<Token>): (r: Result<(Value, seq<Token>), Fault>)
    ensures r.Success? ==> |r.value.1| < |ts|
    decreases |ts|, 1, 0
  {
    if ts == [] then Failure(Underflow)
    else match ts[0]
      case Scalar(v) => Success((v, ts[1..]))
      case MapHeader(n) =>
        (match ReadEntries(ts[1..], n, map[])
         case Success((m, rest)) => Success((Map(m), rest))
         case Failure(f) => Failure(f))
      case ListHeader(n) =>
        (match ReadItems(ts[1..], n)
         case Success((items, rest)) => Success((List(items), rest))
         case Failure(f) => Failure(f))
      case Tag(w) => ReadOfType(ToByte(w), ts[1..])
  }

  /** `n` consecutive values from the front of `ts`. */
  function ReadItems(ts: seq<Token>, n: nat): (r: Result<(seq<Value>, seq<Token>), Fault>)
    ensures r.Success? ==> |r.value.0| == n && |r.value.1| <= |ts|
    decreases |ts|, 2, n
  {
    if n == 0 then Success(([], ts))
    else match Read(ts)
      case Failure(f) => Failure(f)
      case Success((v, rest)) =>
        match ReadItems(rest, n - 1)
        case Failure(f) => Failure(f)
        case Success((vs, rest')) => Success(([v] + vs, rest'))
  }

  /** `n` key-value pairs from the front of `ts`, put into `acc` in order, so a later
      duplicate key wins. */
  function ReadEntries(ts: seq<Token>, n: nat, acc: map<string, Value>): (r: Result<(map<string, Value>, seq<Token>), Fault>)
    ensures r.Success? ==> |r.value.1| <= |ts|
    decreases |ts|, 2, n
  {
    if n == 0 then Success((acc, ts))
    else match Read(ts)
      case Failure(f) => Failure(f)
      case Success((key, mid)) =>
        if !key.Str? then Failure(NonStringKey)
        else match Read(mid)
          case Failure(f) => Failure(f)
          case Success((v, rest)) => ReadEntries(rest, n - 1, acc[key.s := v])
  }

  /** `readValueOfType` for a type byte already consumed. */
  function ReadOfType(b: int, ts: seq<Token>): (r: Result<(Value, seq<Token>), Fault>)
    ensures r.Success? ==> |r.value.1| <= |ts|
    decreases |ts|, 2, 0
  {
    var s := ShapeOfType(b);
    if s == NoShape then Failure(MessageCorrupted)
    else match Read(ts)
      case Failure(f) => Failure(f)
      case Success((v, rest)) =>
        if !v.List? then Failure(NotAList)
        else if |v.items| < |FieldOrder(s)| then Failure(IndexOutOfBounds)
        else Success((Map(Rebuild(FieldOrder(s), v.items)), rest))
  }

  /** `mapOf(k0 to list[0], k1 to list[1], ...)`. */
  function Rebuild(keys: seq<string>, items: seq<Value>): (m: map<string, Value>)
    requires |keys| <= |items|
    ensures m.Keys == set k | k in keys
  {
    if keys == [] then map[]
    else Rebuild(keys[1..], items[1..])[keys[0] := items[0]]
  }

  /** A whole message: exactly one value and nothing after it. */
  function Decode(ts: seq<Token>): Result<Value, Fault> {
    match Read(ts)
    case Failure(f) => Failure(f)
    case Success((v, rest)) => if rest == [] then Success(v) else Failure(MessageCorrupted)
  }

  ghost function Encode(v: Value): seq<Token> {
    Write(v)
  }

  // ---------------------------------------------------------------------------
  // What a value reads back as: the reference for the round trip.

  /** The value `read(write(v))` yields: every domain-shaped map reachable through
      lists, map values and record fields is rebuilt from its positional fields;
      everything else is unchanged. */
  function Norm(v: Value): Value
    decreases v, 2, 0
  {
    match v
    case List(items) => List(NormItems(v, 0))
    case Map(m) =>
      var s := ShapeOf(m);
      if s == NoShape then Map(NormEntries(m, m.Keys))
      else Map(Rebuild(FieldOrder(s), NormFields(m, FieldOrder(s))))
    case _ => v
  }

  function NormItems(v: Value, i: nat): (r: seq<Value>)
    requires v.List? && i <= |v.items|
    ensures |r| == |v.items| - i
    decreases v, 1, |v.items| - i
  {
    if i == |v.items| then [] else [Norm(v.items[i])] + NormItems(v, i + 1)
  }

  /** The entries of `m` under `keys`, each value read back as `Norm` says. */
  function NormEntries(m: map<string, Value>, keys: set<string>): map<string, Value>
    decreases Map(m), 1, 0
  {
    map k | k in keys && k in m :: Norm(m[k])
  }

  function NormFields(m: map<string, Value>, keys: seq<string>): (r: seq<Value>)
    ensures |r| == |keys|
    decreases Map(m), 1, |keys|
  {
    if keys == [] then []
    else [if keys[0] in m then Norm(m[keys[0]]) else Null] + NormFields(m, keys[1..])
  }

  /** A value with no domain-shaped map where the codec would look for one. */
  predicate Plain(v: Value) {
    match v
    case List(items) => forall i :: 0 <= i < |items| ==> Plain(items[i])
    case Map(m) => ShapeOf(m) == NoShape && forall k :: k in m ==> Plain(m[k])
    case _ => true
  }

  // ---------------------------------------------------------------------------
  // The round trip.

  /** One step of `ReadItems`: a value, then the remaining `n - 1`. */
  lemma ReadItemsStep(ts: seq<Token>, n: nat, v: Value, mid: seq<Token>, vs: seq<Value>, rest: seq<Token>)
    requires n > 0
    requires Read(ts) == Success((v, mid))
    requires ReadItems(mid, n - 1) == Success((vs, rest))
    ensures ReadItems(ts, n) == Success(([v] + vs, rest))
  {
  }

  /** Reading back what `Write` wrote gives `Norm(v)` and leaves the rest of the buffer. */
  lemma {:induction false} ReadWrite(v: Value, rest: seq<Token>)
    ensures Read(Write(v) + rest) == Success((Norm(v), rest))
    decreases v, 2, 0
  {
    match v
    case List(items) =>
      ReadWriteList(v, rest);
    case Map(m) =>
      ReadWriteMap(m, rest);
    case _ =>
  }

  lemma {:induction false} ReadWriteList(v: Value, rest: seq<Token>)
    requires v.List?
    ensures Read(Write(v) + rest) == Success((Norm(v), rest))
    decreases v, 1, |v.items| + 1
  {
    var tail := WriteItems(v, 0) + rest;
    ReadWriteItems(v, 0, rest);
    assert Write(v) + rest == [ListHeader(|v.items|)] + tail;
    assert ([ListHeader(|v.items|)] + tail)[1..] == tail;
  }

  lemma {:induction false} ReadWriteMap(m: map<string, Value>, rest: seq<Token>)
    ensures Read(Write(Map(m)) + rest) == Success((Norm(Map(m)), rest))
    decreases Map(m), 1, 7
  {
    if ShapeOf(m) != NoShape {
      ReadWriteShaped(m, rest);
    } else {
      ReadWriteUnshaped(m, rest);
    }
  }

  lemma {:induction false} ReadWriteShaped(m: map<string, Value>, rest: seq<Token>)
    requires ShapeOf(m) != NoShape
    ensures Read(Write(Map(m)) + rest) == Success((Norm(Map(m)), rest))
    decreases Map(m), 1, 6
  {
    var s := ShapeOf(m);
    var keys := FieldOrder(s);
    var tail := WriteFields(m, keys) + rest;
    var body := [ListHeader(|keys|)] + tail;
    var w := WireByte(TypeByte(s));
    assert Read(body) == Success((List(NormFields(m, keys)), rest)) by {
      ReadWriteFields(m, keys, rest);
      assert body[1..] == tail;
    }
    TagReadsBack(s);
    ReadOfTypeList(ToByte(w), body, NormFields(m, keys), rest);
    assert Write(Map(m)) + rest == [Tag(w)] + body;
    ReadTag(w, body);
  }

  lemma {:induction false} ReadWriteUnshaped(m: map<string, Value>, rest: seq<Token>)
    requires ShapeOf(m) == NoShape
    ensures Read(Write(Map(m)) + rest) == Success((Map(NormEntries(m, m.Keys)), rest))
    decreases Map(m), 1, 5
  {
    var keys := KeyOrder(m.Keys);
    var tail := WriteEntries(m, keys) + rest;
    var back := NormEntries(m, m.Keys);
    WriteUnshaped(m, rest);
    KeyOrderCovers(m, keys);
    ReadWriteEntries(m, keys, map[], rest);
    ReadMapHeader(|m|, tail, back, rest);
  }

  lemma WriteUnshaped(m: map<string, Value>, rest: seq<Token>)
    requires ShapeOf(m) == NoShape
    ensures Write(Map(m)) + rest == [MapHeader(|m|)] + (WriteEntries(m, KeyOrder(m.Keys)) + rest)
  {
  }

  /** The iteration order lists every key of `m` once, so reading back all `|m|` entries
      under it rebuilds the whole of `NormEntries(m, m.Keys)`. */
  lemma KeyOrderCovers(m: map<string, Value>, keys: seq<string>)
    requires keys == KeyOrder(m.Keys)
    ensures |keys| == |m| && (forall k :: k in keys ==> k in m)
    ensures map[] + NormEntries(m, set k | k in keys) == NormEntries(m, m.Keys)
  {
    assert (set k | k in keys) == m.Keys;
  }

  lemma ReadMapHeader(n: nat, tail: seq<Token>, m: map<string, Value>, rest: seq<Token>)
    requires ReadEntries(tail, n, map[]) == Success((m, rest))
    ensures Read([MapHeader(n)] + tail) == Success((Map(m), rest))
  {
    assert ([MapHeader(n)] + tail)[1..] == tail;
  }

  /** Reading back the entries under `keys` puts each key's `Norm` value into the map. */
  lemma {:induction false} ReadWriteEntries(m: map<string, Value>, keys: seq<string>,
                                           acc: map<string, Value>, rest: seq<Token>)
    requires forall k :: k in keys ==> k in m
    ensures ReadEntries(WriteEntries(m, keys) + rest, |keys|, acc)
         == Success((acc + NormEntries(m, set k | k in keys), rest))
    decreases Map(m), 0, |keys|
  {
    if keys == [] {
      ReadWriteNoEntries(m, keys, acc, rest);
    } else {
      var k0 := keys[0];
      var tail := WriteEntries(m, keys[1..]) + rest;
      var ts := WriteEntries(m, keys) + rest;
      var later := set k | k in keys[1..];
      WriteEntriesCons(m, keys, rest);
      ReadScalar(Str(k0), Write(m[k0]) + tail);
      ReadWrite(m[k0], tail);
      ReadEntriesStep(ts, |keys|, acc, k0, Write(m[k0]) + tail, Norm(m[k0]), tail);
      ReadWriteEntries(m, keys[1..], acc[k0 := Norm(m[k0])], rest);
      KeySetCons(keys);
      NormEntriesAdd(acc, m, later, k0);
    }
  }

  lemma ReadWriteNoEntries(m: map<string, Value>, keys: seq<string>, acc: map<string, Value>, rest: seq<Token>)
    requires keys == []
    ensures ReadEntries(WriteEntries(m, keys) + rest, |keys|, acc)
         == Success((acc + NormEntries(m, set k | k in keys), rest))
  {
    assert WriteEntries(m, keys) + rest == rest;
    assert acc + NormEntries(m, set k | k in keys) == acc;
  }

  lemma WriteEntriesCons(m: map<string, Value>, keys: seq<string>, rest: seq<Token>)
    requires keys != [] && keys[0] in m
    ensures WriteEntries(m, keys) + rest
         == [Scalar(Str(keys[0]))] + (Write(m[keys[0]]) + (WriteEntries(m, keys[1..]) + rest))
  {
  }

  lemma KeySetCons(keys: seq<string>)
    requires keys != []
    ensures (set k | k in keys) == (set k | k in keys[1..]) + {keys[0]}
  {
  }

  lemma ReadScalar(x: Value, tail: seq<Token>)
    ensures Read([Scalar(x)] + tail) == Success((x, tail))
  {
    assert ([Scalar(x)] + tail)[1..] == tail;
  }

  /** One step of `ReadEntries`: a string key, its value, then the remaining `n - 1`. */
  lemma ReadEntriesStep(ts: seq<Token>, n: nat, acc: map<string, Value>, k: string,
                        mid: seq<Token>, v: Value, rest: seq<Token>)
    requires n > 0 && Read(ts) == Success((Str(k), mid)) && Read(mid) == Success((v, rest))
    ensures ReadEntries(ts, n, acc) == ReadEntries(rest, n - 1, acc[k := v])
  {
  }

  lemma NormEntriesAdd(acc: map<string, Value>, m: map<string, Value>, keys: set<string>, k0: string)
    requires k0 in m
    ensures acc[k0 := Norm(m[k0])] + NormEntries(m, keys) == acc + NormEntries(m, keys + {k0})
  {
    var l := acc[k0 := Norm(m[k0])] + NormEntries(m, keys);
    var r := acc + NormEntries(m, keys + {k0});
    assert l.Keys == r.Keys;
    forall k | k in l ensures l[k] == r[k] {
      if k == k0 || (k in keys && k in m) {
        assert r[k] == Norm(m[k]);
      }
    }
  }

  /** The wire byte of a record's type reads back as that type, and announces that shape. */
  lemma TagReadsBack(s: Shape)
    requires s != NoShape
    ensures ToByte(WireByte(TypeByte(s))) == TypeByte(s)
    ensures ShapeOfType(TypeByte(s)) == s
  {
    TypeBytesReserved();
  }

  /** `readValueOfType` for a known type byte followed by a long enough list. */
  lemma ReadOfTypeList(b: int, body: seq<Token>, items: seq<Value>, rest: seq<Token>)
    requires ShapeOfType(b) != NoShape
    requires Read(body) == Success((List(items), rest))
    requires |items| >= |FieldOrder(ShapeOfType(b))|
    ensures ReadOfType(b, body) == Success((Map(Rebuild(FieldOrder(ShapeOfType(b)), items)), rest))
  {
  }

  lemma ReadTag(w: int, body: seq<Token>)
    ensures Read([Tag(w)] + body) == ReadOfType(ToByte(w), body)
  {
    assert ([Tag(w)] + body)[1..] == body;
  }

  lemma {:induction false} ReadWriteItems(v: Value, i: nat, rest: seq<Token>)
    requires v.List? && i <= |v.items|
    ensures ReadItems(WriteItems(v, i) + rest, |v.items| - i) == Success((NormItems(v, i), rest))
    decreases v, 1, |v.items| - i
  {
    if i < |v.items| {
      var tail := WriteItems(v, i + 1) + rest;
      var ts := WriteItems(v, i) + rest;
      assert Read(ts) == Success((Norm(v.items[i]), tail)) by {
        ReadWrite(v.items[i], tail);
        assert ts == Write(v.items[i]) + tail;
      }
      ReadWriteItems(v, i + 1, rest);
      ReadItemsStep(ts, |v.items| - i, Norm(v.items[i]), tail, NormItems(v, i + 1), rest);
    } else {
      assert WriteItems(v, i) + rest == rest;
    }
  }

  lemma {:induction false} ReadWriteFields(m: map<string, Value>, keys: seq<string>, rest: seq<Token>)
    ensures ReadItems(WriteFields(m, keys) + rest, |keys|) == Success((NormFields(m, keys), rest))
    decreases Map(m), 1, |keys|
  {
    if keys != [] {
      var tail := WriteFields(m, keys[1..]) + rest;
      var first := if keys[0] in m then Norm(m[keys[0]]) else Null;
      WriteFieldsCons(m, keys, rest);
      if keys[0] in m {
        ReadWrite(m[keys[0]], tail);
      } else {
        ReadScalar(Null, tail);
      }
      ReadWriteFields(m, keys[1..], rest);
      ReadItemsStep(WriteFields(m, keys) + rest, |keys|, first, tail, NormFields(m, keys[1..]), rest);
    } else {
      assert WriteFields(m, keys) + rest == rest;
    }
  }

  lemma WriteFieldsCons(m: map<string, Value>, keys: seq<string>, rest: seq<Token>)
    requires keys != []
    ensures WriteFields(m, keys) + rest
         == (if keys[0] in m then Write(m[keys[0]]) else [Scalar(Null)]) + (WriteFields(m, keys[1..]) + rest)
  {
  }

  /** decode(encode(v)) is exactly `Norm(v)`, for every value. */
  lemma DecodeEncode(v: Value)
    ensures Decode(Encode(v)) == Success(Norm(v))
  {
    ReadWrite(v, []);
    assert Write(v) + [] == Write(v);
  }

  /** A value with no domain-shaped map in it reads back unchanged. */
  lemma {:induction false} PlainFixed(v: Value)
    requires Plain(v)
    ensures Norm(v) == v
    decreases v, 2, 0
  {
    match v
    case List(items) =>
      PlainItemsFixed(v, 0);
      assert NormItems(v, 0) == items[0..];
    case Map(m) =>
      forall k | k in m ensures Norm(m[k]) == m[k] {
        PlainFixed(m[k]);
      }
      assert NormEntries(m, m.Keys) == m;
    case _ =>
  }

  lemma {:induction false} PlainItemsFixed(v: Value, i: nat)
    requires v.List? && i <= |v.items| && Plain(v)
    ensures NormItems(v, i) == v.items[i..]
    decreases v, 1, |v.items| - i
  {
    if i < |v.items| {
      PlainFixed(v.items[i]);
      PlainItemsFixed(v, i + 1);
      assert v.items[i..] == [v.items[i]] + v.items[i + 1..];
    }
  }

  // ---------------------------------------------------------------------------
  // The three records.

  /** The map `readValueOfType` rebuilds for a domain-shaped map `m`: exactly the
      record's keys, each holding what `m` held under it (null when absent). */
  function Record(m: map<string, Value>, s: Shape): map<string, Value> {
    map k | k in FieldOrder(s) :: Norm(Field(m, k))
  }

  predicate DistinctKeys(keys: seq<string>) {
    forall a, b :: 0 <= a < b < |keys| ==> keys[a] != keys[b]
  }

  lemma {:induction false} RebuildAt(keys: seq<string>, items: seq<Value>, j: nat)
    requires |keys| <= |items| && j < |keys| && DistinctKeys(keys)
    ensures Rebuild(keys, items)[keys[j]] == items[j]
  {
    if j > 0 {
      assert DistinctKeys(keys[1..]) by {
        forall a, b | 0 <= a < b < |keys[1..]| ensures keys[1..][a] != keys[1..][b] {
          assert keys[1..][a] == keys[a + 1] && keys[1..][b] == keys[b + 1];
        }
      }
      assert keys[j] != keys[0];
      assert keys[1..][j - 1] == keys[j];
      RebuildAt(keys[1..], items[1..], j - 1);
    }
  }

  /** The positional list and `mapOf` are inverse: rebuilding the list `listOf(value[k0],
      value[k1], ...)` under the same distinct keys gives back the record's keys, each
      with what the map held under it (null when absent). */
  lemma PositionalRoundTrip(m: map<string, Value>, keys: seq<string>)
    requires DistinctKeys(keys)
    ensures var back := Rebuild(keys, FieldValues(m, keys));
      back.Keys == (set k | k in keys) && forall k :: k in keys ==> back[k] == Field(m, k)
  {
    var vs := FieldValues(m, keys);
    forall k | k in keys ensures Rebuild(keys, vs)[k] == Field(m, k) {
      var j :| 0 <= j < |keys| && keys[j] == k;
      RebuildAt(keys, vs, j);
    }
  }

  lemma {:induction false} NormFieldsAt(m: map<string, Value>, keys: seq<string>, j: nat)
    requires j < |keys|
    ensures NormFields(m, keys)[j] == Norm(Field(m, keys[j]))
  {
    if j > 0 {
      NormFieldsAt(m, keys[1..], j - 1);
    }
  }

  /** A domain-shaped map reads back as its record: the positional fields and nothing else. */
  lemma NormShaped(m: map<string, Value>)
    requires ShapeOf(m) != NoShape
    ensures Norm(Map(m)) == Map(Record(m, ShapeOf(m)))
  {
    var s := ShapeOf(m);
    var keys := FieldOrder(s);
    var built := Rebuild(keys, NormFields(m, keys));
    assert DistinctKeys(keys);
    forall j | 0 <= j < |keys| ensures built[keys[j]] == Record(m, s)[keys[j]] {
      RebuildAt(keys, NormFields(m, keys), j);
      NormFieldsAt(m, keys, j);
    }
    assert built.Keys == Record(m, s).Keys;
    assert forall k :: k in built ==> exists j :: 0 <= j < |keys| && keys[j] == k;
    assert built == Record(m, s);
  }

  /** Field values that are themselves free of domain-shaped maps. */
  predicate PlainFields(m: map<string, Value>) {
    forall k :: k in m ==> Plain(m[k])
  }

  lemma RecordOfPlain(m: map<string, Value>, s: Shape)
    requires PlainFields(m)
    ensures forall k :: k in FieldOrder(s) ==> Record(m, s)[k] == Field(m, k)
  {
    forall k | k in FieldOrder(s) ensures Record(m, s)[k] == Field(m, k) {
      if k in m {
        PlainFixed(m[k]);
      }
    }
  }

  /** A map holding exactly a record's keys, with plain values, is its own record. */
  lemma RecordExact(m: map<string, Value>, s: Shape)
    requires m.Keys == (set k | k in FieldOrder(s)) && PlainFields(m)
    ensures Record(m, s) == m
  {
    RecordOfPlain(m, s);
  }

  /** A domain-shaped map decodes as exactly its record. */
  lemma ShapedDecode(m: map<string, Value>)
    requires ShapeOf(m) != NoShape
    ensures Decode(Encode(Map(m))) == Success(Map(Record(m, ShapeOf(m))))
  {
    DecodeEncode(Map(m));
    NormShaped(m);
  }

  lemma ScanResultKeys(m: map<string, Value>)
    requires m.Keys == {"imagePaths", "success", "errorMessage"} || m.Keys == {"imagePaths", "success"}
    ensures ShapeOf(m) == ScanResultShape
    ensures m.Keys == {"imagePaths", "success", "errorMessage"} ==> m.Keys == set k | k in FieldOrder(ScanResultShape)
  {
  }

  lemma CompressionResultKeys(m: map<string, Value>)
    requires m.Keys == {"outputPath", "originalSize", "compressedSize", "success", "errorMessage"}
    ensures ShapeOf(m) == CompressionResultShape && m.Keys == set k | k in FieldOrder(CompressionResultShape)
  {
  }

  /** A map with exactly the three ScanResult keys survives the codec unchanged. */
  lemma ScanResultRoundTrip(m: map<string, Value>)
    requires m.Keys == {"imagePaths", "success", "errorMessage"} && PlainFields(m)
    ensures Decode(Encode(Map(m))) == Success(Map(m))
  {
    ScanResultKeys(m);
    RecordExact(m, ScanResultShape);
    ShapedDecode(m);
  }

  /** Without `errorMessage`, the ScanResult comes back holding the key with a null value. */
  lemma ScanResultGainsNullErrorMessage(m: map<string, Value>)
    requires m.Keys == {"imagePaths", "success"} && PlainFields(m)
    ensures Decode(Encode(Map(m))) == Success(Map(m["errorMessage" := Null]))
  {
    ScanResultKeys(m);
    ScanResultFillsNull(m);
    ShapedDecode(m);
  }

  lemma ScanResultFillsNull(m: map<string, Value>)
    requires m.Keys == {"imagePaths", "success"} && PlainFields(m)
    ensures Record(m, ScanResultShape) == m["errorMessage" := Null]
  {
    RecordOfPlain(m, ScanResultShape);
  }

  /** A map with exactly the five CompressionResult keys survives the codec unchanged. */
  lemma CompressionResultRoundTrip(m: map<string, Value>)
    requires m.Keys == {"outputPath", "originalSize", "compressedSize", "success", "errorMessage"}
    requires PlainFields(m)
    ensures Decode(Encode(Map(m))) == Success(Map(m))
  {
    CompressionResultKeys(m);
    RecordExact(m, CompressionResultShape);
    ShapedDecode(m);
  }

  /** ScanOptions are lossy: only `autoCompress` and `compressionQuality` come back, so
      `outputFormat` never survives, and a map holding it is never reproduced. */
  lemma ScanOptionsLossy(m: map<string, Value>)
    requires ShapeOf(m) == ScanOptionsShape
    ensures Decode(Encode(Map(m))).Success?
    ensures var back := Decode(Encode(Map(m))).value;
      back.Map? && back.entries.Keys == {"autoCompress", "compressionQuality"}
      && "outputFormat" !in back.entries
    ensures "outputFormat" in m ==> Decode(Encode(Map(m))) != Success(Map(m))
  {
    DecodeEncode(Map(m));
    NormShaped(m);
    assert Record(m, ScanOptionsShape).Keys == {"autoCompress", "compressionQuality"};
  }

  /** A map that matches no record keeps its keys, and each of its values reads back
      exactly as it would if it were sent on its own. */
  lemma UnshapedMapValues(m: map<string, Value>)
    requires ShapeOf(m) == NoShape
    ensures Decode(Encode(Map(m))).Success?
    ensures var back := Decode(Encode(Map(m))).value;
      back.Map? && back.entries.Keys == m.Keys
      && forall k :: k in m ==> Decode(Encode(m[k])) == Success(back.entries[k])
  {
    DecodeEncode(Map(m));
    forall k | k in m ensures Decode(Encode(m[k])) == Success(Norm(m[k])) {
      DecodeEncode(m[k]);
    }
  }

  /** A ScanResult nested as the only value of a map is still rebuilt as a record,
      so it comes back holding a null `errorMessage`. */
  lemma NestedScanResultRebuilt(key: string, inner: map<string, Value>)
    requires inner.Keys == {"imagePaths", "success"} && PlainFields(inner)
    ensures Decode(Encode(Map(map[key := Map(inner)])))
         == Success(Map(map[key := Map(inner["errorMessage" := Null])]))
  {
    var outer := map[key := Map(inner)];
    assert ShapeOf(outer) == NoShape;
    UnshapedMapValues(outer);
    ScanResultGainsNullErrorMessage(inner);
    var back := Decode(Encode(Map(outer))).value;
    assert back.entries.Keys == {key};
    assert back.entries == map[key := Map(inner["errorMessage" := Null])];
  }

  /** The first matching pair of keys decides the type byte, whatever else the map holds. */
  lemma WriteDispatch(m: map<string, Value>)
    ensures (Write(Map(m))[0] == Tag(130)) <==> ("imagePaths" in m && "success" in m)
    ensures (Write(Map(m))[0] == Tag(129)) <==>
      !("imagePaths" in m && "success" in m) && "autoCompress" in m && "compressionQuality" in m
    ensures (Write(Map(m))[0] == Tag(131)) <==>
      !("imagePaths" in m && "success" in m) && !("autoCompress" in m && "compressionQuality" in m)
      && "outputPath" in m && "originalSize" in m
    ensures (Write(Map(m))[0] == MapHeader(|m|)) <==> ShapeOf(m) == NoShape
  {
    TypeBytesReserved();
  }

  /** A domain record is written as one type byte followed by the ordinary encoding of
      the positional list `listOf(value[k0], value[k1], ...)`. */
  lemma TaggedListEncoding(m: map<string, Value>)
    requires ShapeOf(m) != NoShape
    ensures Write(Map(m)) == [Tag(WireByte(TypeByte(ShapeOf(m))))] + Write(List(FieldValues(m, FieldOrder(ShapeOf(m)))))
  {
    var keys := FieldOrder(ShapeOf(m));
    var l := List(FieldValues(m, keys));
    WriteItemsFields(m, keys, l, 0);
    assert keys[0..] == keys;
  }

  lemma {:induction false} WriteItemsFields(m: map<string, Value>, keys: seq<string>, l: Value, i: nat)
    requires l == List(FieldValues(m, keys)) && i <= |keys|
    ensures WriteItems(l, i) == WriteFields(m, keys[i..])
    decreases |keys| - i
  {
    if i < |keys| {
      WriteItemsFields(m, keys, l, i + 1);
      assert keys[i..][1..] == keys[i + 1..];
    }
  }

  /** Values that are not maps never get a reserved type byte: the base codec writes them. */
  lemma NonMapDelegated(v: Value)
    requires !v.Map?
    ensures !Write(v)[0].Tag?
    ensures !v.List? ==> Write(v) == [Scalar(v)]
  {
  }

  /** Decoding a record reads positions 0..n-1 of its list: a shorter list is a fault,
      never a partial map, and trailing elements are ignored. */
  lemma ReadTaggedList(w: int, items: seq<Value>, rest: seq<Token>)
    requires ShapeOfType(ToByte(w)) != NoShape
    requires forall i :: 0 <= i < |items| ==> Plain(items[i])
    ensures var keys := FieldOrder(ShapeOfType(ToByte(w)));
      Read([Tag(w)] + Write(List(items)) + rest) ==
        if |items| < |keys| then Failure(IndexOutOfBounds)
        else Success((Map(Rebuild(keys, items[..|keys|])), rest))
  {
    var keys := FieldOrder(ShapeOfType(ToByte(w)));
    ReadWrite(List(items), rest);
    PlainFixed(List(items));
    ReadTag(w, Write(List(items)) + rest);
    assert [Tag(w)] + Write(List(items)) + rest == [Tag(w)] + (Write(List(items)) + rest);
    if |items| >= |keys| {
      RebuildPrefix(keys, items);
    }
  }

  lemma {:induction false} RebuildPrefix(keys: seq<string>, items: seq<Value>)
    requires |keys| <= |items|
    ensures Rebuild(keys, items) == Rebuild(keys, items[..|keys|])
  {
    if keys != [] {
      RebuildPrefix(keys[1..], items[1..]);
      assert items[1..][..|keys| - 1] == items[..|keys|][1..];
    }
  }

  /** A record whose payload is not a list fails the cast, and a type byte neither codec
      knows is corrupt. */
  lemma ReadTaggedFaults(w: int, v: Value, rest: seq<Token>)
    ensures ShapeOfType(ToByte(w)) == NoShape ==> Read([Tag(w)] + rest) == Failure(MessageCorrupted)
    ensures ShapeOfType(ToByte(w)) != NoShape && !v.List? ==>
      Read([Tag(w)] + Write(v) + rest) == Failure(NotAList)
  {
    ReadTag(w, rest);
    ReadWrite(v, rest);
    ReadTag(w, Write(v) + rest);
    assert [Tag(w)] + Write(v) + rest == [Tag(w)] + (Write(v) + rest);
  }

  // ---------------------------------------------------------------------------
  // The records the plugin builds.

  lemma StringListPlain(ss: seq<string>)
    ensures Plain(StringList(ss))
  {
  }

  /** Every ScanResult the plugin builds survives the codec. */
  lemma ScanResultMapRoundTrip(r: ScanResult)
    ensures Decode(Encode(Map(ScanResultMap(r)))) == Success(Map(ScanResultMap(r)))
  {
    var m := ScanResultMap(r);
    StringListPlain(r.imagePaths);
    assert m.Keys == {"imagePaths", "success", "errorMessage"};
    ScanResultRoundTrip(m);
  }

  /** Every CompressionResult the plugin builds survives the codec. */
  lemma CompressionResultMapRoundTrip(r: CompressionResult)
    ensures Decode(Encode(Map(CompressionResultMap(r)))) == Success(Map(CompressionResultMap(r)))
  {
    var m := CompressionResultMap(r);
    assert m.Keys == {"outputPath", "originalSize", "compressedSize", "success", "errorMessage"};
    CompressionResultRoundTrip(m);
  }

  /** A one-element reply `listOf(result)` reads back as the list of what `result` reads back as. */
  lemma SingletonReplyRoundTrip(v: Value)
    ensures Decode(Encode(List([v]))) == Success(List([Norm(v)]))
  {
    DecodeEncode(List([v]));
    assert NormItems(List([v]), 1) == [];
    assert NormItems(List([v]), 0) == [Norm(v)];
  }
}
