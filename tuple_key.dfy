/**
 * `TwoIntTuple`, the key of the puzzle collections ("5x5", "10x10", ...): a pair of Swift
 * `Int`s, its string form `"<int0>x<int1>"`, the parser `init?(from:)`, and the conversions of
 * dictionaries between string keys and tuple keys.
 */
module TupleKey {
  import opened Wrappers

  /** Swift's `Int` on a 64-bit platform. */
  type Int = x: int | -0x8000_0000_0000_0000 <= x <= 0x7FFF_FFFF_FFFF_FFFF

  datatype TwoIntTuple = TwoIntTuple(int0: Int, int1: Int)

  /** `init(_ pair: (Int, Int))`. */
  function FromPair(pair: (Int, Int)): (t: TwoIntTuple)
    ensures t.int0 == pair.0 && t.int1 == pair.1
  {
    TwoIntTuple(pair.0, pair.1)
  }

  // ---------- Decimal text ----------

  predicate IsDigit(c: char)
  {
    '0' <= c <= '9'
  }

  predicate AllDigits(s: string)
  {
    forall i :: 0 <= i < |s| ==> IsDigit(s[i])
  }

  function DigitChar(d: nat): (c: char)
    requires d < 10
    ensures IsDigit(c) && c as int - '0' as int == d
  {
    ('0' as int + d) as char
  }

  /** The decimal digits of `n`, most significant first, without leading zeros. */
  function NatToString(n: nat): (s: string)
    ensures |s| > 0 && AllDigits(s)
    decreases n
  {
    if n < 10 then [DigitChar(n)] else NatToString(n / 10) + [DigitChar(n % 10)]
  }

  /** Swift's string interpolation of an integer: a minus sign for negatives, then the digits. */
  function IntToString(n: int): (s: string)
    ensures |s| > 0 && forall i :: 0 <= i < |s| ==> s[i] != 'x'
  {
    if n < 0 then "-" + NatToString(-n) else NatToString(n)
  }

  /** The value of a string of decimal digits. */
  function DigitsValue(s: string): nat
    requires AllDigits(s)
  {
    if |s| == 0 then 0 else DigitsValue(s[..|s| - 1]) * 10 + (s[|s| - 1] as int - '0' as int)
  }

  /**
   * Swift's `Int(_: String)`: an optional `+` or `-`, then one or more decimal digits, and a
   * value that fits in `Int`; anything else is nil.
   */
  function ParseInt(s: string): (r: Option<Int>)
    ensures r.Some? ==> |s| > 0 && forall i :: 1 <= i < |s| ==> IsDigit(s[i])
    ensures r.Some? && s[0] == '-' ==> r.value <= 0
    ensures |s| > 0 && AllDigits(s) && DigitsValue(s) <= 0x7FFF_FFFF_FFFF_FFFF ==> r == Some(DigitsValue(s))
  {
    var negative := |s| > 0 && s[0] == '-';
    var digits := if |s| > 0 && (s[0] == '-' || s[0] == '+') then s[1..] else s;
    if |digits| == 0 || !AllDigits(digits) then None
    else
      var value: int := DigitsValue(digits);
      var v := if negative then -value else value;
      if -0x8000_0000_0000_0000 <= v <= 0x7FFF_FFFF_FFFF_FFFF then Some(v) else None
  }

  lemma {:induction false} DigitsValueOfNatToString(n: nat)
    ensures DigitsValue(NatToString(n)) == n
    decreases n
  {
    if n >= 10 {
      var s := NatToString(n / 10) + [DigitChar(n % 10)];
      assert s[..|s| - 1] == NatToString(n / 10);
      DigitsValueOfNatToString(n / 10);
    }
  }

  /** Parsing the printed form of an `Int` gives it back. */
  lemma {:induction false} ParseIntToString(n: Int)
    ensures ParseInt(IntToString(n)) == Some(n)
  {
    var s := IntToString(n);
    if n < 0 {
      var m: nat := -(n as int);
      var digits := NatToString(m);
      assert s == "-" + digits && s[0] == '-' && s[1..] == digits;
      DigitsValueOfNatToString(m);
    } else {
      var digits := NatToString(n);
      assert s == digits && IsDigit(s[0]);
      DigitsValueOfNatToString(n);
    }
  }

  // ---------- Splitting on "x" ----------

  /** The number of characters before the first 'x' of `s` (all of `s` if it has none). */
  function PieceLength(s: string): (n: nat)
    ensures n <= |s|
    ensures forall i :: 0 <= i < n ==> s[i] != 'x'
    ensures n < |s| ==> s[n] == 'x'
  {
    if |s| == 0 || s[0] == 'x' then 0 else 1 + PieceLength(s[1..])
  }

  /** `s.split(separator: "x")`: the pieces between the 'x's, empty pieces left out. */
  function Split(s: string): (pieces: seq<string>)
    ensures forall k :: 0 <= k < |pieces| ==> |pieces[k]| > 0 && 'x' !in pieces[k]
    decreases |s|
  {
    if |s| == 0 then []
    else if s[0] == 'x' then Split(s[1..])
    else
      var n := PieceLength(s);
      [s[..n]] + Split(s[n..])
  }

  /** A string without 'x' is one piece. */
  lemma {:induction false} SplitNoX(s: string)
    requires |s| > 0 && forall i :: 0 <= i < |s| ==> s[i] != 'x'
    ensures Split(s) == [s]
  {
    assert PieceLength(s) == |s|;
    assert s[..|s|] == s && s[|s|..] == [];
    assert Split(s) == [s[..|s|]] + Split(s[|s|..]);
  }

  /** A piece followed by an 'x' splits off as the first piece. */
  lemma {:induction false} SplitPiece(a: string, rest: string)
    requires |a| > 0 && forall i :: 0 <= i < |a| ==> a[i] != 'x'
    ensures Split(a + "x" + rest) == [a] + Split(rest)
  {
    var s := a + "x" + rest;
    assert s[|a|] == 'x';
    assert PieceLength(s) == |a|;
    assert s[..|a|] == a;
    assert s[|a|..] == "x" + rest;
    assert ("x" + rest)[1..] == rest;
  }

  /** Two pieces joined by one 'x' split back into those two pieces. */
  lemma {:induction false} SplitTwo(a: string, b: string)
    requires |a| > 0 && forall i :: 0 <= i < |a| ==> a[i] != 'x'
    requires |b| > 0 && forall i :: 0 <= i < |b| ==> b[i] != 'x'
    ensures Split(a + "x" + b) == [a, b]
  {
    SplitPiece(a, b);
    SplitNoX(b);
  }

  // ---------- TwoIntTuple and its string form ----------

  /** `description`: `int0` in decimal, then "x", then `int1` in decimal. */
  function Description(t: TwoIntTuple): (s: string)
    ensures Split(s) == [IntToString(t.int0), IntToString(t.int1)]
  {
    SplitTwo(IntToString(t.int0), IntToString(t.int1));
    IntToString(t.int0) + "x" + IntToString(t.int1)
  }

  /**
   * `init?(from:)`: splits on "x" and parses only the first and the last piece, so "5x7x9"
   * is (5, 9) and "5" is (5, 5); nil when there is no piece or either end piece is not an `Int`.
   */
  function FromString(s: string): (r: Option<TwoIntTuple>)
    ensures r.Some? ==>
              |Split(s)| > 0 && ParseInt(Split(s)[0]) == Some(r.value.int0) &&
              ParseInt(Split(s)[|Split(s)| - 1]) == Some(r.value.int1)
  {
    var pieces := Split(s);
    if |pieces| == 0 then None
    else
      match (ParseInt(pieces[0]), ParseInt(pieces[|pieces| - 1]))
      case (Some(int0), Some(int1)) => Some(TwoIntTuple(int0, int1))
      case _ => None
  }

  /** Parsing the description of a tuple gives the tuple back. */
  lemma {:induction false} FromStringDescription(t: TwoIntTuple)
    ensures FromString(Description(t)) == Some(t)
  {
    SplitTwo(IntToString(t.int0), IntToString(t.int1));
    ParseIntToString(t.int0);
    ParseIntToString(t.int1);
  }

  lemma FromStringDescriptions()
    ensures forall t :: FromString(Description(t)) == Some(t)
  {
    forall t ensures FromString(Description(t)) == Some(t) {
      FromStringDescription(t);
    }
  }

  /** Different tuples have different descriptions. */
  lemma DescriptionInjective(t: TwoIntTuple, u: TwoIntTuple)
    ensures Description(t) == Description(u) ==> t == u
  {
    FromStringDescription(t);
    FromStringDescription(u);
  }

  /** Only the first and the last piece are read: the middle piece of "5x7x9" is ignored. */
  lemma FromStringIgnoresMiddle()
    ensures FromString("5x7x9") == Some(TwoIntTuple(5, 9))
  {
    assert "5x7x9" == "5" + "x" + "7x9";
    SplitPiece("5", "7x9");
    assert "7x9" == "7" + "x" + "9";
    SplitTwo("7", "9");
    assert Split("5x7x9") == ["5", "7", "9"];
    assert DigitsValue("5") == 5 && DigitsValue("9") == 9;
    assert ParseInt("5") == Some(5) && ParseInt("9") == Some(9);
  }

  /** A string without 'x' is both the first and the last piece. */
  lemma FromStringSinglePiece()
    ensures FromString("5") == Some(TwoIntTuple(5, 5))
  {
    SplitNoX("5");
    assert ParseInt("5") == Some(5);
  }

  /** Leading and trailing 'x's only make empty pieces, which are dropped. */
  lemma FromStringOuterSeparators()
    ensures FromString("x10x") == Some(TwoIntTuple(10, 10))
  {
    assert "x10x"[1..] == "10x" && "10x" == "10" + "x" + "";
    SplitPiece("10", "");
    assert Split("x10x") == ["10"];
    assert ParseInt("10") == Some(10) by {
      assert DigitsValue("10") == DigitsValue("1") * 10 + 0 by {
        assert "10"[..1] == "1";
      }
    }
  }

  /** No piece, no tuple. */
  lemma FromStringNoPiece()
    ensures FromString("") == None
    ensures FromString("xx") == None
  {
    assert Split("xx") == [] by {
      assert "xx"[1..] == "x" && "x"[1..] == "";
    }
  }

  /** An end piece that is not a number gives no tuple. */
  lemma FromStringNotNumber()
    ensures FromString("ax5") == None
  {
    assert "ax5" == "a" + "x" + "5";
    SplitTwo("a", "5");
    assert ParseInt("a") == None;
  }

  /** Parsing fails exactly when there is no piece, or the first or the last piece is not an `Int`. */
  lemma FromStringNone(s: string)
    ensures FromString(s) == None <==>
              |Split(s)| == 0 || ParseInt(Split(s)[0]) == None || ParseInt(Split(s)[|Split(s)| - 1]) == None
  {
  }

  // ---------- Dictionaries keyed by tuples ----------

  /** The `(Int, Int)` subscript getter: the entry of `TwoIntTuple(key)`. */
  function GetPair<V>(d: map<TwoIntTuple, V>, key: (Int, Int)): (r: Option<V>)
    ensures r.Some? <==> FromPair(key) in d
    ensures r.Some? ==> r.value == d[FromPair(key)]
  {
    var k := FromPair(key);
    if k in d then Some(d[k]) else None
  }

  /** The `(Int, Int)` subscript setter: assigning nil removes the entry of `TwoIntTuple(key)`. */
  function SetPair<V>(d: map<TwoIntTuple, V>, key: (Int, Int), newValue: Option<V>): (r: map<TwoIntTuple, V>)
    ensures GetPair(r, key) == newValue
    ensures forall t :: t != FromPair(key) ==> (t in r <==> t in d)
    ensures forall t :: t != FromPair(key) && t in d ==> r[t] == d[t]
  {
    var k := FromPair(key);
    match newValue
    case Some(v) => d[k := v]
    case None => d - {k}
  }

  /**
   * `toStringKey()`: every entry under the description of its key. Descriptions never
   * collide, so the order of the fold does not matter and no entry is lost.
   */
  function ToStringKey<V>(d: map<TwoIntTuple, V>): (r: map<string, V>)
    ensures forall t :: t in d ==> Description(t) in r && r[Description(t)] == d[t]
    ensures forall s :: s in r ==> exists t :: t in d && Description(t) == s
  {
    forall t, u ensures Description(t) == Description(u) ==> t == u {
      DescriptionInjective(t, u);
    }
    map t | t in d :: Description(t) := d[t]
  }

  /** Re-keying through a function with a left inverse loses no entry. */
  lemma {:induction false} RekeySize<K, L, V>(d: map<K, V>, enc: K -> L, dec: L -> Option<K>, sd: map<L, V>)
    requires forall t :: dec(enc(t)) == Some(t)
    requires forall t :: t in d ==> enc(t) in sd
    requires forall s :: s in sd ==> exists t :: t in d && enc(t) == s
    ensures |sd| == |d|
    decreases |d|
  {
    if |d| == 0 {
      assert d.Keys == {};
      assert sd.Keys == {};
    } else {
      var t :| t in d;
      var rest := d - {t};
      var k := enc(t);
      var srest := sd - {k};
      assert forall s :: s in srest ==> exists u :: u in rest && enc(u) == s by {
        forall s | s in srest ensures exists u :: u in rest && enc(u) == s {
          var u :| u in d && enc(u) == s;
          assert dec(enc(u)) == Some(u) && dec(enc(t)) == Some(t);
          assert u in rest;
        }
      }
      assert forall u :: u in rest ==> enc(u) in srest by {
        forall u | u in rest ensures enc(u) in srest {
          assert dec(enc(u)) == Some(u) && dec(enc(t)) == Some(t);
        }
      }
      RekeySize(rest, enc, dec, srest);
      AddOneKey(sd, srest, k);
    }
  }

  lemma AddOneKey<K, V>(r: map<K, V>, r': map<K, V>, k: K)
    requires k in r && r' == r - {k}
    ensures |r| == |r'| + 1
  {
    assert r.Keys == r'.Keys + {k};
    assert |r.Keys| == |r'.Keys| + 1;
  }

  /** No entry is lost: the string-keyed dictionary has as many entries as the original. */
  lemma ToStringKeySize<V>(d: map<TwoIntTuple, V>)
    ensures |ToStringKey(d)| == |d|
  {
    FromStringDescriptions();
    RekeySize(d, Description, FromString, ToStringKey(d));
  }

  /** The entries `toTupleKey()` can produce from `d`: keys that parse, each with a value under some spelling of it. */
  ghost predicate TupleKeyed<V>(d: map<string, V>, r: map<TwoIntTuple, V>)
  {
    (forall t :: t in r <==> exists s :: s in d && FromString(s) == Some(t)) &&
    (forall t :: t in r ==> exists s :: s in d && FromString(s) == Some(t) && r[t] == d[s])
  }

  /** `order` visits every key of `d` and nothing else: an iteration order of `d`. */
  ghost predicate ListsKeys<V>(d: map<string, V>, order: seq<string>)
  {
    forall s :: s in d <==> s in order
  }

  /** The index of the last key of `order` that `parse` turns into `t`, or -1 when there is none. */
  function LastParsed<L, K(==)>(order: seq<L>, parse: L -> Option<K>, t: K): (k: int)
    ensures -1 <= k < |order|
    ensures k >= 0 ==> parse(order[k]) == Some(t)
    ensures forall j :: k < j < |order| ==> parse(order[j]) != Some(t)
    decreases |order|
  {
    if order == [] then -1
    else if parse(order[|order| - 1]) == Some(t) then |order| - 1
    else
      var visited := order[..|order| - 1];
      assert forall j :: 0 <= j < |visited| ==> visited[j] == order[j];
      LastParsed(visited, parse, t)
  }

  /**
   * The `reduce` of `toTupleKey()` with the parser as a parameter: visits the entries of `d`
   * in `order` and stores each entry whose key `parse` accepts under the parsed key, so that
   * of several keys that parse alike the one visited last wins.
   */
  function ReduceParsed<L, K(==,!new), V>(d: map<L, V>, order: seq<L>, parse: L -> Option<K>): (r: map<K, V>)
    requires forall s :: s in order ==> s in d
    ensures forall t :: t in r <==> LastParsed(order, parse, t) >= 0
    ensures forall t :: t in r ==> r[t] == d[order[LastParsed(order, parse, t)]]
    decreases |order|
  {
    if order == [] then map[]
    else
      var visited := order[..|order| - 1];
      assert forall j :: 0 <= j < |visited| ==> visited[j] == order[j];
      var dict := ReduceParsed(d, visited, parse);
      var key := order[|order| - 1];
      match parse(key)
      case Some(tuple) => dict[tuple := d[key]]
      case None => dict
  }

  /**
   * `toTupleKey()`: the entries of `d`, visited in `order` (the dictionary's own iteration
   * order, which Swift leaves unspecified), each stored under the tuple its key parses to;
   * keys that do not parse are dropped, and when several spellings parse to the same tuple
   * ("5x5", "05x5") the one visited last wins.
   */
  function ToTupleKey<V>(d: map<string, V>, order: seq<string>): (r: map<TwoIntTuple, V>)
    requires forall s :: s in order ==> s in d
    ensures forall t :: t in r <==> LastParsed(order, FromString, t) >= 0
    ensures forall t :: t in r ==> r[t] == d[order[LastParsed(order, FromString, t)]]
  {
    ReduceParsed(d, order, FromString)
  }

  /** Whatever the order, `toTupleKey()` keeps the entries of exactly the keys that parse. */
  lemma ToTupleKeyKeyed<V>(d: map<string, V>, order: seq<string>)
    requires ListsKeys(d, order)
    ensures TupleKeyed(d, ToTupleKey(d, order))
  {
    var r := ToTupleKey(d, order);
    forall t ensures t in r <==> exists s :: s in d && FromString(s) == Some(t) {
      if s :| s in d && FromString(s) == Some(t) {
        var k :| 0 <= k < |order| && order[k] == s;
        assert LastParsed(order, FromString, t) >= k;
      }
    }
    forall t | t in r ensures exists s :: s in d && FromString(s) == Some(t) && r[t] == d[s] {
      var k := LastParsed(order, FromString, t);
      assert order[k] in d && FromString(order[k]) == Some(t);
    }
  }

  /**
   * Re-keying a dictionary through `enc` and back through a left inverse `dec` of `enc`
   * gives the original dictionary.
   */
  lemma RekeyRoundTrip<K, L, V>(d: map<K, V>, enc: K -> L, dec: L -> Option<K>, sd: map<L, V>, r: map<K, V>)
    requires forall t :: dec(enc(t)) == Some(t)
    requires forall t :: t in d ==> enc(t) in sd && sd[enc(t)] == d[t]
    requires forall s :: s in sd ==> exists t :: t in d && enc(t) == s
    requires forall t :: t in r <==> exists s :: s in sd && dec(s) == Some(t)
    requires forall t :: t in r ==> exists s :: s in sd && dec(s) == Some(t) && r[t] == sd[s]
    ensures r == d
  {
    forall t | t in d ensures t in r && r[t] == d[t] {
      assert dec(enc(t)) == Some(t);
      var s :| s in sd && dec(s) == Some(t) && r[t] == sd[s];
      var u :| u in d && enc(u) == s;
    }
    forall t | t in r ensures t in d {
      var s :| s in sd && dec(s) == Some(t);
      var u :| u in d && enc(u) == s;
    }
  }

  /** Converting tuple keys to strings and back gives the original dictionary, whatever the fold order. */
  lemma ToTupleKeyOfToStringKey<V>(d: map<TwoIntTuple, V>, order: seq<string>)
    requires ListsKeys(ToStringKey(d), order)
    ensures ToTupleKey(ToStringKey(d), order) == d
  {
    ToTupleKeyKeyed(ToStringKey(d), order);
    FromStringDescriptions();
    RekeyRoundTrip(d, Description, FromString, ToStringKey(d), ToTupleKey(ToStringKey(d), order));
  }
}
