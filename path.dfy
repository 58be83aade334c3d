/**
 * getPath (esquery.js): the value reached from a node by a dotted property
 * path such as `id.name` or `params.length`.
 *
 * A property value is a field value of the tree: a node, an array of nodes or
 * a scalar. A node's properties are its `type` and its fields; an array's are
 * `length` and its canonical decimal indices; a string's are `length` and its
 * indices; numbers and booleans have no own properties.
 */
module PathResolve {
  import opened Common
  import opened Tree

  // ---------------------------------------------------------------------------
  // key.split(".")

  /** The pieces of `s` between dots: `"a.b"` gives `["a", "b"]`, `""` gives `[""]`. */
  function SplitDots(s: string): (parts: seq<string>)
    ensures |parts| >= 1
    ensures forall i | 0 <= i < |parts| :: '.' !in parts[i]
    decreases |s|
  {
    if s == [] then [""]
    else if s[0] == '.' then [""] + SplitDots(s[1..])
    else
      var rest := SplitDots(s[1..]);
      [[s[0]] + rest[0]] + rest[1..]
  }

  /** parts.join(".") */
  function JoinDots(parts: seq<string>): string
    requires |parts| >= 1
  {
    if |parts| == 1 then parts[0] else parts[0] + "." + JoinDots(parts[1..])
  }

  /** Splitting loses nothing: joining the pieces gives the key back. */
  lemma {:induction false} JoinSplit(s: string)
    ensures JoinDots(SplitDots(s)) == s
    decreases |s|
  {
    if s != [] {
      JoinSplit(s[1..]);
      var rest := SplitDots(s[1..]);
      if s[0] == '.' {
        assert [""] + rest == [""] + rest;
        assert ([""] + rest)[1..] == rest;
        assert s == [s[0]] + s[1..];
      } else {
        var parts := [[s[0]] + rest[0]] + rest[1..];
        assert parts[1..] == rest[1..];
        if |rest| == 1 {
          assert s == [s[0]] + s[1..];
        } else {
          assert JoinDots(rest) == rest[0] + "." + JoinDots(rest[1..]);
          assert s == [s[0]] + s[1..];
        }
      }
    }
  }

  /** A dot-free piece followed by a dot splits off as one piece. */
  lemma {:induction false} SplitPiece(w: string, s: string)
    requires '.' !in w
    ensures SplitDots(w + "." + s) == [w] + SplitDots(s)
    ensures SplitDots(w) == [w]
    decreases |w|
  {
    if w == [] {
      assert w + "." + s == ['.'] + s;
      assert (['.'] + s)[1..] == s;
    } else {
      SplitPiece(w[1..], s);
      assert (w + "." + s)[1..] == w[1..] + "." + s;
      assert w[1..] == w[1..] + "";
      assert w == [w[0]] + w[1..];
    }
  }

  /** Joining dot-free pieces and splitting again gives the pieces back. */
  lemma {:induction false} SplitJoin(parts: seq<string>)
    requires |parts| >= 1
    requires forall i | 0 <= i < |parts| :: '.' !in parts[i]
    ensures SplitDots(JoinDots(parts)) == parts
    decreases |parts|
  {
    if |parts| == 1 {
      SplitPiece(parts[0], "");
    } else {
      SplitJoin(parts[1..]);
      SplitPiece(parts[0], JoinDots(parts[1..]));
      assert parts == [parts[0]] + parts[1..];
    }
  }

  // ---------------------------------------------------------------------------
  // Canonical array indices

  predicate IsDigit(c: char) {
    '0' <= c <= '9'
  }

  function DigitValue(c: char): nat
    requires IsDigit(c)
  {
    c as int - '0' as int
  }

  function DigitChar(d: nat): (c: char)
    requires d < 10
    ensures IsDigit(c) && DigitValue(c) == d
  {
    ('0' as int + d) as char
  }

  /** The decimal numeral of `k`, as JavaScript prints a non-negative integer. */
  function Decimal(k: nat): (s: string)
    ensures |s| >= 1 && forall i | 0 <= i < |s| :: IsDigit(s[i])
    ensures k >= 10 ==> s[0] != '0'
    ensures k < 10 <==> |s| == 1
  {
    if k < 10 then [DigitChar(k)] else Decimal(k / 10) + [DigitChar(k % 10)]
  }

  /** The value of a numeral, read left to right. */
  function DigitsValue(s: string): nat
    requires forall i | 0 <= i < |s| :: IsDigit(s[i])
  {
    if s == [] then 0 else DigitsValue(s[..|s| - 1]) * 10 + DigitValue(s[|s| - 1])
  }

  /** The array element a key names: the keys "0", "1", ..., "10", ... and no others. */
  function ArrayIndex(key: string): Option<nat> {
    if key == [] || (key[0] == '0' && |key| > 1) || exists i | 0 <= i < |key| :: !IsDigit(key[i]) then None
    else Some(DigitsValue(key))
  }

  lemma {:induction false} DigitsOfDecimal(k: nat)
    ensures DigitsValue(Decimal(k)) == k
  {
    if k >= 10 {
      DigitsOfDecimal(k / 10);
      var s := Decimal(k);
      assert s[..|s| - 1] == Decimal(k / 10);
    }
  }

  lemma {:induction false} LeadingDigitBound(s: string)
    requires |s| >= 1 && forall i | 0 <= i < |s| :: IsDigit(s[i])
    requires s[0] != '0'
    ensures DigitsValue(s) >= 1
    ensures |s| >= 2 ==> DigitsValue(s) >= 10
    decreases |s|
  {
    if |s| >= 2 {
      LeadingDigitBound(s[..|s| - 1]);
    }
  }

  lemma {:induction false} DecimalOfDigits(s: string)
    requires |s| >= 1 && forall i | 0 <= i < |s| :: IsDigit(s[i])
    requires s[0] != '0' || |s| == 1
    ensures Decimal(DigitsValue(s)) == s
    decreases |s|
  {
    if |s| >= 2 {
      var init := s[..|s| - 1];
      DecimalOfDigits(init);
      LeadingDigitBound(s);
      var k := DigitsValue(s);
      assert k / 10 == DigitsValue(init);
      assert k % 10 == DigitValue(s[|s| - 1]);
      assert s == init + [s[|s| - 1]];
    }
  }

  /** Every index names itself: the key "k" reaches element k. */
  lemma IndexOfDecimal(k: nat)
    ensures ArrayIndex(Decimal(k)) == Some(k)
  {
    DigitsOfDecimal(k);
  }

  /** Only canonical numerals are indices: "01", "+1" and "1.0" are not. */
  lemma IndexKeyIsDecimal(key: string, k: nat)
    requires ArrayIndex(key) == Some(k)
    ensures key == Decimal(k)
  {
    DecimalOfDigits(key);
  }

  // ---------------------------------------------------------------------------
  // Properties and paths

  /** The first field of `fs` called `key`. */
  function FieldNamed(fs: seq<Field>, key: string): (r: Option<FieldValue>)
    ensures r.Some? <==> exists i | 0 <= i < |fs| :: fs[i].key == key
    ensures r.Some? ==> exists i | 0 <= i < |fs| :: fs[i].key == key && fs[i].value == r.value
  {
    if fs == [] then None
    else if fs[0].key == key then Some(fs[0].value)
    else
      var r := FieldNamed(fs[1..], key);
      assert forall i | 1 <= i < |fs| :: fs[i] == fs[1..][i - 1];
      r
  }

  /** `value[key]`, when it is not undefined. */
  function Prop(value: FieldValue, key: string): Option<FieldValue> {
    match value
    case NodeField(n) =>
      if key != "type" then FieldNamed(n.fields, key)
      else if n.nodeType.Some? then Some(ScalarField(StrScalar(n.nodeType.value)))
      else None
    case ListField(ks) =>
      if key == "length" then Some(ScalarField(NumScalar(|ks|)))
      else
        var k := ArrayIndex(key);
        if k.Some? && k.value < |ks| then Some(NodeField(ks[k.value])) else None
    case ScalarField(StrScalar(s)) =>
      if key == "length" then Some(ScalarField(NumScalar(|s|)))
      else
        var k := ArrayIndex(key);
        if k.Some? && k.value < |s| then Some(ScalarField(StrScalar([s[k.value]]))) else None
    case ScalarField(_) => None
  }

  /** Follows `keys` one property at a time; undefined as soon as one is missing. */
  function Resolve(value: FieldValue, keys: seq<string>): Option<FieldValue>
    decreases |keys|
  {
    if keys == [] then Some(value)
    else
      match Prop(value, keys[0])
      case None => None
      case Some(next) => Resolve(next, keys[1..])
  }

  /** getPath(node, key) */
  function ResolvedPath(value: FieldValue, key: string): Option<FieldValue> {
    Resolve(value, SplitDots(key))
  }

  /** Resolving a longer path resolves the first part, then the rest from there. */
  lemma {:induction false} ResolveAppend(value: FieldValue, a: seq<string>, b: seq<string>)
    ensures Resolve(value, a + b) ==
            match Resolve(value, a)
            case None => None
            case Some(mid) => Resolve(mid, b)
    decreases |a|
  {
    if a != [] {
      assert (a + b)[0] == a[0] && (a + b)[1..] == a[1..] + b;
      match Prop(value, a[0])
      case None =>
      case Some(next) => ResolveAppend(next, a[1..], b);
    } else {
      assert a + b == b;
    }
  }

  /** A dotted key `w.rest` reads property `w`, then follows `rest` from there. */
  lemma DottedPath(value: FieldValue, w: string, rest: string)
    requires '.' !in w
    ensures ResolvedPath(value, w + "." + rest) ==
            match Prop(value, w)
            case None => None
            case Some(next) => ResolvedPath(next, rest)
  {
    SplitPiece(w, rest);
  }

  /** A key without dots reads a single property. */
  lemma PlainKey(value: FieldValue, w: string)
    requires '.' !in w
    ensures ResolvedPath(value, w) == Prop(value, w)
  {
    SplitPiece(w, "");
    match Prop(value, w)
    case None =>
    case Some(next) =>
      assert [w][1..] == [];
      assert Resolve(value, [w]) == Resolve(next, []);
  }

  /**
   * `w.type` reads the `type` of the object at `w`: its string when it has
   * one, and undefined for a plain object such as a location.
   */
  lemma TypeThroughPath(value: FieldValue, w: string, o: Node)
    requires '.' !in w && Prop(value, w) == Some(NodeField(o))
    ensures o.nodeType.Some? ==> ResolvedPath(value, w + ".type") == Some(ScalarField(StrScalar(o.nodeType.value)))
    ensures o.nodeType.None? ==> ResolvedPath(value, w + ".type") == None
  {
    assert w + ".type" == w + "." + "type";
    DottedPath(value, w, "type");
    PlainKey(NodeField(o), "type");
    assert ResolvedPath(value, w + ".type") == Prop(NodeField(o), "type");
  }

  /** getPath as the source runs it: one property per loop step. */
  method GetPath(obj: Node, key: string) returns (r: Option<FieldValue>)
    ensures r == ResolvedPath(NodeField(obj), key)
  {
    var keys := SplitDots(key);
    var value := NodeField(obj);
    var i := 0;
    while i < |keys|
      invariant 0 <= i <= |keys|
      invariant Resolve(NodeField(obj), keys) == Resolve(value, keys[i..])
    {
      var next := Prop(value, keys[i]);
      if next.None? {
        return None;
      }
      assert keys[i..][1..] == keys[i + 1..];
      value := next.value;
      i := i + 1;
    }
    return Some(value);
  }
}
