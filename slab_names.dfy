/**
 * The per-slab output file names of surface_generator:
 * "slab_" + the text of the untranslated Miller index + "_" + the
 * variant counter + ".cif", where a tuple of integers is written
 * "(h, k, l)" and an integer in plain decimal with a leading '-' when
 * negative. The decoder is the inverse that shows no two names collide.
 */
module SlabNames {
  import opened Wrappers
  import opened Miller

  /** The character of a decimal digit. */
  function DigitChar(d: nat): (c: char)
    requires d < 10
    ensures '0' <= c <= '9' && (c as int) - ('0' as int) == d
  {
    (('0' as int) + d) as char
  }

  predicate IsDigit(c: char) {
    '0' <= c <= '9'
  }

  /** The value of a decimal digit. */
  function DigitValue(c: char): (d: nat)
    requires IsDigit(c)
    ensures d < 10 && DigitChar(d) == c
  {
    (c as int) - ('0' as int)
  }

  /** The decimal text of a natural number, without leading zeros. */
  function Decimal(n: nat): (s: string)
    ensures |s| >= 1
    ensures forall i :: 0 <= i < |s| ==> IsDigit(s[i])
    ensures n > 0 ==> s[0] != '0'
    ensures n == 0 ==> s == "0"
  {
    if n < 10 then [DigitChar(n)] else Decimal(n / 10) + [DigitChar(n % 10)]
  }

  /** The text of an integer: its decimal digits, after a '-' when negative. */
  function IntText(x: int): (s: string)
    ensures |s| >= 1
    ensures s[0] == '-' <==> x < 0
    ensures forall i :: 0 < i < |s| ==> IsDigit(s[i])
  {
    if x < 0 then "-" + Decimal(-x) else Decimal(x)
  }

  /** The text of a Miller index, "(h, k, l)". */
  function TripleText(m: Triple): (s: string)
    ensures |s| >= 9 && s[0] == '(' && s[|s| - 1] == ')'
  {
    "(" + IntText(m.0) + ", " + IntText(m.1) + ", " + IntText(m.2) + ")"
  }

  /** The outer frame of every file name: "slab_" in front, ".cif" behind. */
  predicate IsSlabFileName(name: string) {
    |name| >= 20 && name[..5] == "slab_" && name[|name| - 4..] == ".cif"
  }

  /**
   * The file name written for slab number i of Miller index m. What the
   * name carries is stated by NameRoundTrip and NameInjective.
   */
  function SlabFileName(m: Triple, i: nat): (name: string)
    ensures IsSlabFileName(name)
  {
    "slab_" + TripleText(m) + "_" + Decimal(i) + ".cif"
  }

  /** The number a non-empty string of digits stands for. */
  function DigitsValue(s: string): nat
    requires forall i :: 0 <= i < |s| ==> IsDigit(s[i])
  {
    if s == [] then 0
    else DigitsValue(s[..|s| - 1]) * 10 + DigitValue(s[|s| - 1])
  }

  /** Reads a natural number written in decimal. */
  function ParseDecimal(s: string): Option<nat> {
    if s != [] && forall i :: 0 <= i < |s| ==> IsDigit(s[i]) then Some(DigitsValue(s)) else None
  }

  /** Reads an integer written as IntText writes it. */
  function ParseInt(s: string): Option<int> {
    if s != [] && s[0] == '-' then
      match ParseDecimal(s[1..])
      case Some(n) => var x: int := n; Some(-x)
      case None => None
    else
      match ParseDecimal(s)
      case Some(n) => Some(n)
      case None => None
  }

  /** Splits a string at the first occurrence of a character, dropping it. */
  function SplitAt(s: string, c: char): Option<(string, string)> {
    if s == [] then None
    else if s[0] == c then Some(([], s[1..]))
    else
      var rest :- SplitAt(s[1..], c);
      Some(([s[0]] + rest.0, rest.1))
  }

  /** Drops a required leading character. */
  function DropChar(s: string, c: char): Option<string> {
    if s != [] && s[0] == c then Some(s[1..]) else None
  }

  /** Recovers the Miller index and the slab number from a file name. */
  function DecodeFileName(name: string): Option<(Triple, nat)> {
    if |name| < 10 || name[..6] != "slab_(" || name[|name| - 4..] != ".cif" then None
    else DecodeFields(name[6..|name| - 4])
  }

  /** Cuts "h, k, l)_i", the part of a file name between "slab_(" and ".cif", into its four fields. */
  function SplitFields(body: string): Option<(string, string, string, string)> {
    var first :- SplitAt(body, ',');
    var afterH :- DropChar(first.1, ' ');
    var second :- SplitAt(afterH, ',');
    var afterK :- DropChar(second.1, ' ');
    var third :- SplitAt(afterK, ')');
    var counter :- DropChar(third.1, '_');
    Some((first.0, second.0, third.0, counter))
  }

  /** Reads "h, k, l)_i" as a Miller index and a slab number. */
  function DecodeFields(body: string): Option<(Triple, nat)> {
    var fields :- SplitFields(body);
    var h :- ParseInt(fields.0);
    var k :- ParseInt(fields.1);
    var l :- ParseInt(fields.2);
    var i :- ParseDecimal(fields.3);
    Some(((h, k, l), i))
  }

  /** Reading back the decimal text of a number gives the number. */
  lemma {:induction false} DecimalRoundTrip(n: nat)
    ensures DigitsValue(Decimal(n)) == n
  {
    if n >= 10 {
      var s := Decimal(n);
      assert s[..|s| - 1] == Decimal(n / 10);
      DecimalRoundTrip(n / 10);
    }
  }

  lemma ParseDecimalRoundTrip(n: nat)
    ensures ParseDecimal(Decimal(n)) == Some(n)
  {
    DecimalRoundTrip(n);
  }

  /** Reading back the text of an integer gives the integer. */
  lemma ParseIntRoundTrip(x: int)
    ensures ParseInt(IntText(x)) == Some(x)
  {
    if x < 0 {
      assert IntText(x)[1..] == Decimal(-x);
      ParseDecimalRoundTrip(-x);
    } else {
      assert IsDigit(Decimal(x)[0]);
      ParseDecimalRoundTrip(x);
    }
  }

  /** The text of an integer holds no separator of the file name. */
  lemma IntTextHasNoSeparator(x: int)
    ensures ',' !in IntText(x) && ')' !in IntText(x)
  {
  }

  /** Splitting at the first c of a + [c] + b, when a holds no c, gives a and b back. */
  lemma {:induction false} SplitAtJoin(a: string, c: char, b: string)
    requires c !in a
    ensures SplitAt(a + [c] + b, c) == Some((a, b))
  {
    var s := a + [c] + b;
    if a == [] {
      assert s[1..] == b;
    } else {
      assert s[1..] == a[1..] + [c] + b;
      SplitAtJoin(a[1..], c, b);
      assert [a[0]] + a[1..] == a;
    }
  }

  /** The part of a file name between "slab_(" and ".cif". */
  function Fields(m: Triple, i: nat): string {
    IntText(m.0) + ", " + IntText(m.1) + ", " + IntText(m.2) + ")_" + Decimal(i)
  }

  lemma FrameShape(h: string, k: string, l: string, d: string)
    ensures "slab_" + ("(" + h + ", " + k + ", " + l + ")") + "_" + d + ".cif"
         == "slab_(" + (h + ", " + k + ", " + l + ")_" + d) + ".cif"
  {
    var t := h + ", " + k + ", " + l;
    assert "(" + h + ", " + k + ", " + l + ")" == "(" + t + ")";
    assert "slab_" + "(" == "slab_(";
    assert ")" + "_" == ")_";
    calc {
      "slab_" + ("(" + t + ")") + "_" + d + ".cif";
      ("slab_" + "(") + t + (")" + "_") + d + ".cif";
      "slab_(" + (t + ")_" + d) + ".cif";
    }
  }

  lemma FileNameFrame(m: Triple, i: nat)
    ensures SlabFileName(m, i) == "slab_(" + Fields(m, i) + ".cif"
  {
    FrameShape(IntText(m.0), IntText(m.1), IntText(m.2), Decimal(i));
  }

  lemma FieldsShape(h: string, k: string, l: string, d: string)
    ensures h + ", " + k + ", " + l + ")_" + d
         == h + [','] + ([' '] + (k + [','] + ([' '] + (l + [')'] + (['_'] + d)))))
  {
  }

  /** The fields of a name are cut apart at the separators that follow them. */
  lemma SplitFieldsRoundTrip(h: string, k: string, l: string, d: string)
    requires ',' !in h && ',' !in k && ')' !in l
    ensures SplitFields(h + ", " + k + ", " + l + ")_" + d) == Some((h, k, l, d))
  {
    var tail3 := ['_'] + d;
    var rest2 := l + [')'] + tail3;
    var tail2 := [' '] + rest2;
    var rest1 := k + [','] + tail2;
    var tail1 := [' '] + rest1;
    var body := h + ", " + k + ", " + l + ")_" + d;
    FieldsShape(h, k, l, d);
    assert body == h + [','] + tail1;
    SplitAtJoin(h, ',', tail1);
    assert tail1[1..] == rest1;
    SplitAtJoin(k, ',', tail2);
    assert tail2[1..] == rest2;
    SplitAtJoin(l, ')', tail3);
    assert tail3[1..] == d;
    assert SplitAt(body, ',') == Some((h, tail1));
    assert DropChar(tail1, ' ') == Some(rest1);
    assert SplitAt(rest1, ',') == Some((k, tail2));
    assert DropChar(tail2, ' ') == Some(rest2);
    assert SplitAt(rest2, ')') == Some((l, tail3));
    assert DropChar(tail3, '_') == Some(d);
  }

  lemma DecodeFieldsRoundTrip(m: Triple, i: nat)
    ensures DecodeFields(Fields(m, i)) == Some((m, i))
  {
    IntTextHasNoSeparator(m.0);
    IntTextHasNoSeparator(m.1);
    IntTextHasNoSeparator(m.2);
    SplitFieldsRoundTrip(IntText(m.0), IntText(m.1), IntText(m.2), Decimal(i));
    ParseIntRoundTrip(m.0);
    ParseIntRoundTrip(m.1);
    ParseIntRoundTrip(m.2);
    ParseDecimalRoundTrip(i);
  }

  /** Decoding a file name gives back the Miller index and slab number it was built from. */
  lemma NameRoundTrip(m: Triple, i: nat)
    ensures DecodeFileName(SlabFileName(m, i)) == Some((m, i))
  {
    var body := Fields(m, i);
    var name := SlabFileName(m, i);
    FileNameFrame(m, i);
    assert name[..6] == "slab_(";
    assert name[|name| - 4..] == ".cif";
    assert name[6..|name| - 4] == body;
    DecodeFieldsRoundTrip(m, i);
  }

  /** Two slabs get the same file name only when their index and number agree. */
  lemma NameInjective(m1: Triple, i1: nat, m2: Triple, i2: nat)
    ensures SlabFileName(m1, i1) == SlabFileName(m2, i2) <==> m1 == m2 && i1 == i2
  {
    NameRoundTrip(m1, i1);
    NameRoundTrip(m2, i2);
  }

  /** The names written for one request: slabs 0 to n - 1 of the same index. */
  lemma NamesDistinct(m: Triple, i: nat, j: nat)
    requires i != j
    ensures SlabFileName(m, i) != SlabFileName(m, j)
  {
    NameInjective(m, i, m, j);
  }

  /** A name embeds the index it was given, never a different one such as its translation. */
  lemma NameEmbedsUntranslated(m: Triple, i: nat)
    requires Translate(m).Some? && Translate(m).value != m
    ensures SlabFileName(m, i) != SlabFileName(Translate(m).value, i)
  {
    NameInjective(m, i, Translate(m).value, i);
  }

  /**
   * The names written for slabs 0 to n - 1 of one index decode to
   * their index and number, and are pairwise distinct.
   */
  lemma NameSequence(m: Triple, names: seq<string>)
    requires forall j :: 0 <= j < |names| ==> names[j] == SlabFileName(m, j)
    ensures forall j :: 0 <= j < |names| ==> DecodeFileName(names[j]) == Some((m, j))
    ensures forall j, k :: 0 <= j < k < |names| ==> names[j] != names[k]
  {
    forall j | 0 <= j < |names| ensures DecodeFileName(names[j]) == Some((m, j)) {
      NameRoundTrip(m, j);
    }
    forall j, k | 0 <= j < k < |names| ensures names[j] != names[k] {
      NamesDistinct(m, j, k);
    }
  }

  /** The name of the first slab of (0, 0, 1). */
  lemma SlabFileNameExample()
    ensures SlabFileName((0, 0, 1), 0) == "slab_(0, 0, 1)_0.cif"
  {
  }

  /** The text of a Miller index with a negative component, and of a two-digit counter. */
  lemma TextExamples()
    ensures TripleText((1, -1, 0)) == "(1, -1, 0)"
    ensures Decimal(12) == "12"
  {
  }
}
