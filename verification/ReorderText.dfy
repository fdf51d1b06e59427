/** What a reorder line says: its number digit by digit, and its parts character by character. */
module ReorderText {
  import opened Wrappers
  import opened Text
  import opened Recommendation

  // ---------------------------------------------------------------- numbers as they are written

  function Digit(d: nat): char
    requires d < 10
  {
    '0' + d as char
  }

  /** The decimal digits of a number, by division and remainder. */
  function Numeral(n: nat): (s: string)
    ensures |s| >= 1 && forall i :: 0 <= i < |s| ==> IsDigit(s[i])
  {
    if n < 10 then [Digit(n)] else Numeral(n / 10) + [Digit(n % 10)]
  }

  /** The last `k` digits of a number, with leading zeros. */
  function Places(m: nat, k: nat): (s: string)
    ensures |s| == k && forall i :: 0 <= i < |s| ==> IsDigit(s[i])
  {
    if k == 0 then "" else Places(m / 10, k - 1) + [Digit(m % 10)]
  }

  function Zeros(k: nat): (s: string)
    ensures |s| == k && forall i :: 0 <= i < k ==> s[i] == '0'
  {
    seq(k, _ => '0')
  }

  lemma WholeMore(s: string, d: nat)
    requires d < 10
    ensures Whole(s + [Digit(d)]) == 10 * Whole(s) + d
  {
    assert (s + [Digit(d)])[..|s|] == s;
  }

  lemma {:induction false} WholeNumeral(n: nat)
    ensures Whole(Numeral(n)) == n
  {
    if n < 10 {
      WholeMore("", n);
      assert "" + [Digit(n)] == [Digit(n)];
    } else {
      WholeNumeral(n / 10);
      WholeMore(Numeral(n / 10), n % 10);
    }
  }

  lemma PowerMore(m: nat, k: nat)
    requires k >= 1 && m < Power(k)
    ensures m / 10 < Power(k - 1) && m == 10 * (m / 10) + m % 10
  {
  }

  lemma PlacesMore(m: nat, k: nat)
    requires k >= 1
    ensures Places(m, k) == Places(m / 10, k - 1) + [Digit(m % 10)]
  {
  }

  lemma {:induction false} WholePlaces(m: nat, k: nat) returns (s: string)
    requires m < Power(k)
    ensures s == Places(m, k) && Whole(s) == m
  {
    if k > 0 {
      PowerMore(m, k);
      PlacesMore(m, k);
      s := WholePlaces(m / 10, k - 1);
      WholeMore(s, m % 10);
      s := s + [Digit(m % 10)];
    } else {
      s := "";
    }
  }

  lemma MoreZeros(k: nat)
    requires k >= 1
    ensures ['1'] + Zeros(k) == (['1'] + Zeros(k - 1)) + [Digit(0)]
  {
    assert Zeros(k) == Zeros(k - 1) + ['0'];
  }

  lemma {:induction false} WholeScale(k: nat)
    ensures Whole(['1'] + Zeros(k)) == Power(k)
  {
    if k == 0 {
      WholeNumeral(1);
      assert ['1'] + Zeros(0) == Numeral(1);
    } else {
      WholeScale(k - 1);
      MoreZeros(k);
      WholeMore(['1'] + Zeros(k - 1), 0);
    }
  }

  /** `scale` is ten to the `k`: it is written as a one and `k` zeros. */
  predicate IsScale(scale: nat, k: nat) { scale >= 1 && Numeral(scale) == ['1'] + Zeros(k) }

  lemma ScaleIsPower(scale: nat, k: nat)
    requires IsScale(scale, k)
    ensures scale == Power(k)
  {
    WholeNumeral(scale);
    WholeScale(k);
  }

  lemma PointAfter(whole: string, rest: string)
    requires forall i :: 0 <= i < |whole| ==> whole[i] != '.'
    ensures PointAt(whole + rest) == |whole| + PointAt(rest)
  {
    if whole != "" {
      assert (whole + rest)[1..] == whole[1..] + rest;
      PointAfter(whole[1..], rest);
    } else {
      assert whole + rest == rest;
    }
  }

  /** A number written without a point is that number. */
  lemma WrittenWhole(n: nat)
    ensures Decimal(Numeral(n)) == Some(n as real)
  {
    WholeNumeral(n);
    assert Numeral(n) + "" == Numeral(n);
    PointAfter(Numeral(n), "");
  }

  lemma DecimalSplit(whole: string, parts: string)
    requires whole != "" && '.' !in whole && '.' !in parts
    ensures Decimal(whole + (['.'] + parts)) == Some(Fraction(whole, parts))
  {
    var s := whole + (['.'] + parts);
    PointAfter(whole, ['.'] + parts);
    assert PointAt(['.'] + parts) == 0;
    assert s[..|whole|] == whole && s[|whole| + 1..] == parts;
  }

  lemma FractionIs(whole: string, parts: string, n: nat, m: nat, scale: nat)
    requires Whole(whole) == n && Whole(parts) == m && Power(|parts|) == scale
    ensures Fraction(whole, parts) == n as real + m as real / scale as real
  {
  }

  /** With a point and `k` further digits it is as many parts of ten to the `k` more. */
  lemma WrittenParts(n: nat, m: nat, k: nat, scale: nat)
    requires IsScale(scale, k) && m < scale
    ensures Decimal(Numeral(n) + (['.'] + Places(m, k))) == Some(n as real + m as real / scale as real)
  {
    ScaleIsPower(scale, k);
    WholeNumeral(n);
    var parts := WholePlaces(m, k);
    DecimalSplit(Numeral(n), Places(m, k));
    FractionIs(Numeral(n), Places(m, k), n, m, scale);
  }

  /** A string of digits and points is no number exactly when it is a lone point or has two. */
  lemma NoNumberIff(s: string)
    requires s != "" && forall i :: 0 <= i < |s| ==> IsDigit(s[i]) || s[i] == '.'
    ensures Decimal(s) == None <==> s == "." || exists i, j :: 0 <= i < j < |s| && s[i] == s[j] == '.'
  {
    var n := PointAt(s);
    if n < |s| && '.' in s[n + 1..] {
      var k :| 0 <= k < |s| - n - 1 && s[n + 1..][k] == '.';
      assert s[n] == s[n + 1 + k] == '.';
    }
    if i, j :| 0 <= i < j < |s| && s[i] == s[j] == '.' {
      assert n <= i;
      assert s[n + 1..][j - n - 1] == '.';
    }
  }

  // ---------------------------------------------------------------- the parts of a line

  ghost predicate Gap(s: string) { forall i :: 0 <= i < |s| ==> IsSpace(s[i]) }

  lemma {:induction false} TrimGap(gap: string, rest: string)
    requires Gap(gap) && (rest == "" || !IsSpace(rest[0]))
    ensures TrimLeft(gap + rest) == rest
  {
    if gap == "" {
      assert gap + rest == rest;
    } else {
      assert (gap + rest)[1..] == gap[1..] + rest;
      TrimGap(gap[1..], rest);
    }
  }

  lemma GapOf(s: string) returns (gap: string)
    ensures s == gap + TrimLeft(s) && Gap(gap) && (TrimLeft(s) != "" ==> !IsSpace(TrimLeft(s)[0]))
  {
    TrimLeftSplits(s);
    gap := s[..|s| - |TrimLeft(s)|];
  }

  lemma StartsIff(s: string, word: string)
    requires forall i :: 0 <= i < |word| ==> !('A' <= word[i] <= 'Z')
    ensures StartsWithIgnoringCase(s, word) <==> WrittenAt(s, word, 0)
  {
    LowerSame(word);
    if |word| <= |s| { LowerIff(s[..|word|], word); }
  }

  lemma LetterOf(s: string, word: string, k: nat, c: char)
    requires WrittenAt(s, word, 0) && k < |word| && word[k] == c
    ensures k < |s| && SameLetter(s[k], c)
  {
    assert s[0 + k] == s[k];
  }

  /** A product is named by its key, in any case. */
  lemma NameFound(s: string, product: Product)
    ensures ProductName(s) == Some(product) <==> WrittenAt(s, product.Key(), 0)
  {
    StartsIff(s, "coagulant");
    StartsIff(s, "biocide");
    StartsIff(s, "corrosion_inhibitor");
    if WrittenAt(s, "coagulant", 0) {
      LetterOf(s, "coagulant", 0, 'c');
      LetterOf(s, "coagulant", 2, 'a');
    }
    if WrittenAt(s, "biocide", 0) { LetterOf(s, "biocide", 0, 'b'); }
    if WrittenAt(s, "corrosion_inhibitor", 0) {
      LetterOf(s, "corrosion_inhibitor", 0, 'c');
      LetterOf(s, "corrosion_inhibitor", 2, 'r');
    }
  }

  predicate IsNumber(s: string) {
    s != "" && forall i :: 0 <= i < |s| ==> IsDigit(s[i]) || s[i] == '.'
  }

  lemma {:induction false} NumberEnds(number: string, rest: string)
    requires forall i :: 0 <= i < |number| ==> IsDigit(number[i]) || number[i] == '.'
    requires rest == "" || (!IsDigit(rest[0]) && rest[0] != '.')
    ensures NumberLength(number + rest) == |number|
  {
    if number == "" {
      assert number + rest == rest;
    } else {
      assert (number + rest)[1..] == number[1..] + rest;
      NumberEnds(number[1..], rest);
    }
  }

  /** "qty", an equals sign and a number, each with or without white space before it, and then the rest. */
  ghost predicate Quantity(s: string, gap: string, gap2: string, number: string, rest: string) {
    && WrittenAt(s, "qty", 0) && Gap(gap) && Gap(gap2) && IsNumber(number)
    && (rest == "" || (!IsDigit(rest[0]) && rest[0] != '.'))
    && s[3..] == gap + (['='] + (gap2 + (number + rest)))
  }

  lemma QuantityRead(s: string, gap: string, gap2: string, number: string, rest: string)
    requires Quantity(s, gap, gap2, number, rest)
    ensures QuantityText(s) == Some((number, TrimLeft(rest)))
  {
    StartsIff(s, "qty");
    var tail := ['='] + (gap2 + (number + rest));
    assert !IsSpace('=');
    TrimGap(gap, tail);
    assert tail[1..] == gap2 + (number + rest);
    assert !IsSpace((number + rest)[0]);
    TrimGap(gap2, number + rest);
    NumberEnds(number, rest);
    assert (number + rest)[..|number|] == number && (number + rest)[|number|..] == rest;
  }

  lemma NumberOf(w: string) returns (number: string, rest: string)
    requires NumberLength(w) > 0
    ensures w == number + rest && number == w[..NumberLength(w)] && rest == w[NumberLength(w)..] && IsNumber(number)
    ensures rest == "" || (!IsDigit(rest[0]) && rest[0] != '.')
  {
    number, rest := w[..NumberLength(w)], w[NumberLength(w)..];
  }

  lemma QuantityShape(s: string) returns (v: string, w: string)
    requires QuantityText(s).Some?
    ensures |s| >= 3 && v == TrimLeft(s[3..]) && v != "" && v[0] == '=' && w == TrimLeft(v[1..]) && NumberLength(w) > 0
    ensures QuantityText(s) == Some((w[..NumberLength(w)], TrimLeft(w[NumberLength(w)..])))
  {
    v := TrimLeft(s[3..]);
    w := TrimLeft(v[1..]);
  }

  lemma QuantityWritten(s: string) returns (gap: string, gap2: string, number: string, rest: string)
    requires QuantityText(s).Some?
    ensures Quantity(s, gap, gap2, number, rest) && QuantityText(s) == Some((number, TrimLeft(rest)))
  {
    StartsIff(s, "qty");
    var v, w := QuantityShape(s);
    gap := GapOf(s[3..]);
    gap2 := GapOf(v[1..]);
    number, rest := NumberOf(w);
    QuantityBuilt(s, gap, v, gap2, w, number, rest);
  }

  lemma QuantityBuilt(s: string, gap: string, v: string, gap2: string, w: string, number: string, rest: string)
    requires WrittenAt(s, "qty", 0) && Gap(gap) && Gap(gap2) && IsNumber(number) && |s| >= 3
    requires rest == "" || (!IsDigit(rest[0]) && rest[0] != '.')
    requires s[3..] == gap + v && v != "" && v[0] == '=' && v[1..] == gap2 + w && w == number + rest
    ensures Quantity(s, gap, gap2, number, rest)
  {
    assert v == ['='] + v[1..];
  }

  /** Nothing but white space, with the default reason; or "because" and, after white space, the reason. */
  ghost predicate Reason(rest: string, gap: string, words: string, reason: string) {
    || (Gap(rest) && reason == "recommended by the Recommendation Agent")
    || (Gap(gap) && |words| > 7 && WrittenAt(words, "because", 0) && IsSpace(words[7]) && rest == gap + words
        && reason == Strip(words[7..]))
  }

  lemma ReasonRead(rest: string, gap: string, words: string, reason: string)
    requires Reason(rest, gap, words, reason)
    ensures ReasonOf(TrimLeft(rest)) == Some(reason)
  {
    if Gap(rest) && reason == "recommended by the Recommendation Agent" {
      TrimGap(rest, "");
      assert rest + "" == rest;
    } else {
      StartsIff(words, "because");
      LetterOf(words, "because", 0, 'b');
      assert !IsSpace(words[0]);
      TrimGap(gap, words);
    }
  }

  lemma ReasonWritten(rest: string) returns (gap: string, words: string)
    requires ReasonOf(TrimLeft(rest)).Some?
    ensures Reason(rest, gap, words, ReasonOf(TrimLeft(rest)).value)
  {
    gap := GapOf(rest);
    words := TrimLeft(rest);
    StartsIff(words, "because");
    if words == "" { assert rest == gap; }
  }

  /** A reorder: the product's key, white space, the quantity, and the reason. */
  ghost predicate Orders(s: string, product: Product, number: string, reason: string) {
    exists gap, ask, gap2, gap3, rest, gap4, words ::
      OrdersWith(s, product, gap, ask, gap2, gap3, number, rest, gap4, words, reason)
  }

  ghost predicate OrdersWith(s: string, product: Product, gap: string, ask: string, gap2: string, gap3: string,
                             number: string, rest: string, gap4: string, words: string, reason: string) {
    && WrittenAt(s, product.Key(), 0) && gap != "" && Gap(gap)
    && s[|product.Key()|..] == gap + ask
    && Quantity(ask, gap2, gap3, number, rest)
    && Reason(rest, gap4, words, reason)
  }

  lemma OrdersRead(raw: string, product: Product, gap: string, ask: string, gap2: string, gap3: string,
                   number: string, rest: string, gap4: string, words: string, reason: string)
    requires OrdersWith(Strip(raw), product, gap, ask, gap2, gap3, number, rest, gap4, words, reason)
    ensures ReorderParts(raw) == Some((product, number, reason))
  {
    NameFound(Strip(raw), product);
    LetterOf(ask, "qty", 0, 'q');
    assert !IsSpace(ask[0]);
    TrimGap(gap, ask);
    QuantityRead(ask, gap2, gap3, number, rest);
    ReasonRead(rest, gap4, words, reason);
  }

  lemma OrdersWritten(raw: string)
    requires ReorderParts(raw).Some?
    ensures
      var (product, number, reason) := ReorderParts(raw).value;
      Orders(Strip(raw), product, number, reason)
  {
    var s := Strip(raw);
    var product := ProductName(s).value;
    NameFound(s, product);
    var rest := s[|product.Key()|..];
    var gap := GapOf(rest);
    var ask := TrimLeft(rest);
    var gap2, gap3, number, tail := QuantityWritten(ask);
    var gap4, words := ReasonWritten(tail);
    assert OrdersWith(s, product, gap, ask, gap2, gap3, number, tail, gap4, words, ReorderParts(raw).value.2);
  }

  /** A line orders this much of this product for this reason if and only if that is what it says. */
  lemma PartsIff(raw: string, product: Product, number: string, reason: string)
    ensures ReorderParts(raw) == Some((product, number, reason)) <==> Orders(Strip(raw), product, number, reason)
  {
    if ReorderParts(raw) == Some((product, number, reason)) { OrdersWritten(raw); }
    if Orders(Strip(raw), product, number, reason) {
      var gap, ask, gap2, gap3, rest, gap4, words :|
        OrdersWith(Strip(raw), product, gap, ask, gap2, gap3, number, rest, gap4, words, reason);
      OrdersRead(raw, product, gap, ask, gap2, gap3, number, rest, gap4, words, reason);
    }
  }
}
