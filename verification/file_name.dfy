/** The output location of a generated graph:
    `destination_folder / "scale_free_graph_<n>_<k>.xml"`, with n and k written as Python's `str`
    writes a non-negative integer. */
module GraphFileName {

  datatype Option<T> = None | Some(value: T)

  /** A filesystem path as the list of its components. */
  datatype Path = Path(parts: seq<string>)

  /** `dir / name`. */
  function Join(dir: Path, name: string): (p: Path)
    ensures |p.parts| == |dir.parts| + 1 && p.parts[..|dir.parts|] == dir.parts
    ensures p.parts[|dir.parts|] == name
  {
    Path(dir.parts + [name])
  }

  const Prefix: string := "scale_free_graph_"
  const Separator: char := '_'
  const Suffix: string := ".xml"

  predicate IsDigit(c: char)
  {
    '0' <= c <= '9'
  }

  predicate IsDecimal(s: string)
  {
    |s| > 0 && forall i :: 0 <= i < |s| ==> IsDigit(s[i])
  }

  function DigitChar(x: nat): (c: char)
    requires x < 10
    ensures IsDigit(c)
  {
    (48 + x) as char
  }

  function DigitValue(c: char): nat
    requires IsDigit(c)
  {
    c as int - 48
  }

  /** `str(x)` for x >= 0: decimal digits, with a leading zero only for x == 0 itself. */
  function Decimal(x: nat): (s: string)
    ensures IsDecimal(s)
    ensures s[0] == '0' <==> x == 0
  {
    if x < 10 then [DigitChar(x)] else Decimal(x / 10) + [DigitChar(x % 10)]
  }

  /** Reads a string of decimal digits back as a number. */
  function ParseDecimal(s: string): nat
    requires forall i :: 0 <= i < |s| ==> IsDigit(s[i])
  {
    if s == [] then 0 else 10 * ParseDecimal(s[..|s| - 1]) + DigitValue(s[|s| - 1])
  }

  lemma {:induction false} ParseDecimalOfDecimal(x: nat)
    ensures ParseDecimal(Decimal(x)) == x
  {
    var s := Decimal(x);
    if x >= 10 {
      ParseDecimalOfDecimal(x / 10);
      assert s[..|s| - 1] == Decimal(x / 10);
    }
  }

  /** The position of the first `c` in s, or |s| when there is none. */
  function IndexOf(s: string, c: char): (p: nat)
    ensures p <= |s|
    ensures p < |s| ==> s[p] == c
    ensures forall i :: 0 <= i < p ==> s[i] != c
  {
    if s == [] then 0 else if s[0] == c then 0 else 1 + IndexOf(s[1..], c)
  }

  /** The file name of the graph with n vertices and attachment degree k. */
  function FileName(n: nat, k: nat): (name: string)
    ensures |name| > |Prefix| + |Suffix|
    ensures name[..|Prefix|] == Prefix && name[|name| - |Suffix|..] == Suffix
  {
    Prefix + Decimal(n) + [Separator] + Decimal(k) + Suffix
  }

  /** Recovers (n, k) from a file name of the form above, or None for any other name. */
  function ParseFileName(name: string): Option<(nat, nat)>
  {
    if |name| < |Prefix| + |Suffix| || name[..|Prefix|] != Prefix || name[|name| - |Suffix|..] != Suffix then None
    else
      var middle := name[|Prefix|..|name| - |Suffix|];
      var p := IndexOf(middle, Separator);
      if p < |middle| && IsDecimal(middle[..p]) && IsDecimal(middle[p + 1..])
      then Some((ParseDecimal(middle[..p]), ParseDecimal(middle[p + 1..])))
      else None
  }

  /** The file name determines the parameters it was built from. */
  lemma FileNameRoundTrip(n: nat, k: nat)
    ensures ParseFileName(FileName(n, k)) == Some((n, k))
  {
    var left, right := Decimal(n), Decimal(k);
    var name := FileName(n, k);
    var middle := left + [Separator] + right;
    assert name == Prefix + middle + Suffix;
    assert name[..|Prefix|] == Prefix;
    assert name[|name| - |Suffix|..] == Suffix;
    assert name[|Prefix|..|name| - |Suffix|] == middle;
    SplitAtSeparator(left, right);
    ParseDecimalOfDecimal(n);
    ParseDecimalOfDecimal(k);
  }

  /** A digit string followed by the separator splits back at that separator. */
  lemma SplitAtSeparator(left: string, right: string)
    requires IsDecimal(left)
    ensures var middle := left + [Separator] + right;
      var p := IndexOf(middle, Separator);
      p == |left| && middle[..p] == left && middle[p + 1..] == right
  {
    var middle := left + [Separator] + right;
    assert middle[|left|] == Separator;
    assert forall i :: 0 <= i < |left| ==> middle[i] == left[i] && IsDigit(left[i]);
    assert middle[..|left|] == left;
    assert middle[|left| + 1..] == right;
  }

  /** Two parameter pairs never share an output file. */
  lemma FileNameInjective(n1: nat, k1: nat, n2: nat, k2: nat)
    requires FileName(n1, k1) == FileName(n2, k2)
    ensures n1 == n2 && k1 == k2
  {
    FileNameRoundTrip(n1, k1);
    FileNameRoundTrip(n2, k2);
  }
}
