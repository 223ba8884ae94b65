/** Journal file names: twelve-digit zero padding, lexical order, and reading an index back. */
module FileNames {
  import opened Options
  import opened Decimals
  import opened SortedNames

  const WIDTH: nat := 12

  function Padded(n: nat): string {
    var s := Decimal(n);
    if |s| < WIDTH then Zeros(WIDTH - |s|) + s else s
  }

  const SUFFIX := ".json"

  function FileName(idx: nat): string {
    Padded(idx) + SUFFIX
  }

  function TmpName(idx: nat): string {
    FileName(idx) + ".tmp"
  }

  /** What glob("*.json") matches. */
  predicate IsJson(name: string) {
    |name| >= |SUFFIX| && name[|name| - |SUFFIX|..] == SUFFIX
  }

  lemma OnlyFinishedFilesListed(idx: nat)
    ensures IsJson(FileName(idx)) && !IsJson(TmpName(idx))
  {
    var name := FileName(idx);
    assert name[|name| - |SUFFIX|..] == SUFFIX;
    var tmp := TmpName(idx);
    assert tmp[|tmp| - |SUFFIX|] == 'n';
  }

  // ---- reading an index back from a name

  function ParseIndex(name: string): Option<nat> {
    if !IsJson(name) then None
    else
      var stem := name[..|name| - |SUFFIX|];
      if stem != [] && IsDigits(stem) then Some(Value(stem)) else None
  }

  /** Round trip: the index parsed from a journal name is the index it was written for. */
  lemma ParseFileName(idx: nat)
    ensures ParseIndex(FileName(idx)) == Some(idx)
  {
    var name := FileName(idx);
    OnlyFinishedFilesListed(idx);
    assert name[..|name| - |SUFFIX|] == Padded(idx);
    var s := Decimal(idx);
    var zeros := if |s| < WIDTH then WIDTH - |s| else 0;
    assert Padded(idx) == Zeros(zeros) + s;
    DecimalValue(idx, zeros);
  }

  // ---- lexical order is numeric order

  function Fixed(n: nat, width: nat): (s: string)
    ensures |s| == width
  {
    if width == 0 then [] else Fixed(n / 10, width - 1) + [Digit(n % 10)]
  }

  lemma {:induction false} PaddingIsFixed(n: nat, width: nat)
    requires n < Pow10(width) && width > 0
    ensures |Decimal(n)| <= width && Zeros(width - |Decimal(n)|) + Decimal(n) == Fixed(n, width)
  {
    if n < 10 {
      ZeroFixed(width - 1);
      assert Fixed(n / 10, width - 1) == Zeros(width - 1);
    } else {
      PaddingIsFixed(n / 10, width - 1);
    }
  }

  lemma {:induction false} ZeroFixed(width: nat)
    ensures Fixed(0, width) == Zeros(width)
  {
    if width > 0 {
      ZeroFixed(width - 1);
    }
  }

  lemma {:induction false} FixedOrder(i: nat, j: nat, width: nat)
    requires i < j < Pow10(width)
    ensures LexLess(Fixed(i, width), Fixed(j, width))
  {
    var a, b := [Digit(i % 10)], [Digit(j % 10)];
    if i / 10 < j / 10 {
      FixedOrder(i / 10, j / 10, width - 1);
      LexExtend(Fixed(i / 10, width - 1), Fixed(j / 10, width - 1), a, b);
    } else {
      assert i / 10 == j / 10 && i % 10 < j % 10;
      LexSamePrefix(Fixed(i / 10, width - 1), a, b);
    }
  }

  const INDEX_LIMIT: nat := 1_000_000_000_000

  lemma LimitIsPow10()
    ensures Pow10(WIDTH) == INDEX_LIMIT && 10 * Pow10(WIDTH - 1) == INDEX_LIMIT
  {
    assert Pow10(3) == 1000;
    assert Pow10(6) == 1000 * Pow10(3) == 1_000_000;
    assert Pow10(9) == 1000 * Pow10(6) == 1_000_000_000;
    assert Pow10(12) == 1000 * Pow10(9);
  }

  lemma PaddedIsFixed(n: nat)
    requires n < INDEX_LIMIT
    ensures Padded(n) == Fixed(n, WIDTH) && n < Pow10(WIDTH)
  {
    LimitIsPow10();
    PaddingIsFixed(n, WIDTH);
  }

  lemma NameOrder(i: nat, j: nat)
    requires i < j < INDEX_LIMIT
    ensures LexLess(FileName(i), FileName(j))
  {
    PaddedIsFixed(i);
    PaddedIsFixed(j);
    FixedOrder(i, j, WIDTH);
    LexExtend(Padded(i), Padded(j), SUFFIX, SUFFIX);
  }

  /** The first index of thirteen digits sorts before the last one of twelve. */
  lemma OrderBreaks()
    ensures !LexLess(FileName(INDEX_LIMIT - 1), FileName(INDEX_LIMIT))
  {
    assert DropDigits(999_999_999_999, 11) == 9 && DropDigits(1_000_000_000_000, 12) == 1;
    LeadingDigit(999_999_999_999, 11);
    LeadingDigit(1_000_000_000_000, 12);
    assert FileName(999_999_999_999)[0] == '9' && FileName(1_000_000_000_000)[0] == '1';
  }

  ghost predicate NamesInOrder(n: nat) {
    forall i, j :: 0 <= i < j < n ==> LexLess(FileName(i), FileName(j))
  }

  /** How far the padding reaches: names sort as their indices exactly while the indices fit in twelve digits. */
  lemma NamesInOrderIff(n: nat)
    ensures NamesInOrder(n) <==> n <= INDEX_LIMIT
  {
    if n <= INDEX_LIMIT {
      forall i, j | 0 <= i < j < n ensures LexLess(FileName(i), FileName(j)) {
        NameOrder(i, j);
      }
    } else {
      OrderBreaks();
    }
  }
}
