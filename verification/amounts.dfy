/** The amount normaliser (`normalizeAmount`, src/index.js:204-213). */
module Amounts {
  import opened Strings
  import opened Numerals
  import opened Wrappers

  /** What the normaliser yields: `false` for an instalment ratio such as
      "2/4", or otherwise the cleaned text that is handed to `parseFloat`
      (floating point is not modelled; see `Numerals` for whole cents). */
  datatype Amount = NotApplicable | Value(cleaned: string)

  /** The edits applied before `parseFloat`, in source order: the first `€`
      dropped, the first `,` turned into `.`, the first space dropped. The
      comma is replaced in place, so only a `€` and a space, when present,
      shorten the text; UnspacedCharacters and FirstOfEachReplaced say which
      characters go and where. */
  function Unspaced(raw: string): (r: string)
    ensures |r| == |raw| - (if '€' in raw then 1 else 0) - (if ' ' in raw then 1 else 0)
  {
    var s1 := ReplaceFirst(raw, "€", "");
    var s2 := ReplaceFirst(s1, ",", ".");
    ReplaceFirstLength(raw, '€', "");
    ReplaceFirstLength(s1, ',', ".");
    ReplaceFirstLength(s2, ' ', "");
    ReplaceFirstKeeps(raw, '€', "", ' ');
    ReplaceFirstKeeps(s1, ',', ".", ' ');
    ReplaceFirst(s2, " ", "")
  }

  /** The cleaning changes nothing but one `€`, one `,` and one space: as a
      bag of characters, the untrimmed result is the raw text less one of
      each that occurs, plus a `.` for the comma. */
  lemma UnspacedCharacters(raw: string)
    ensures multiset(Unspaced(raw))
         == multiset(raw) - Once('€', raw) - Once(',', raw)
            + (if ',' in raw then multiset{'.'} else multiset{}) - Once(' ', raw)
  {
    var s1 := ReplaceFirst(raw, "€", "");
    var s2 := ReplaceFirst(s1, ",", ".");
    var s3 := ReplaceFirst(s2, " ", "");
    var dot := if ',' in raw then multiset{'.'} else multiset{};
    assert Once(',', s1) == Once(',', raw) by {
      ReplaceFirstKeeps(raw, '€', "", ',');
    }
    assert Once(' ', s2) == Once(' ', raw) by {
      ReplaceFirstKeeps(raw, '€', "", ' ');
      ReplaceFirstKeeps(s1, ',', ".", ' ');
    }
    assert multiset(s1) == multiset(raw) - Once('€', raw) by {
      ReplaceFirstBag(raw, '€', "");
    }
    assert multiset(s2) == multiset(s1) - Once(',', raw) + dot by {
      ReplaceFirstBag(s1, ',', ".");
    }
    assert multiset(s3) == multiset(s2) - Once(' ', raw) by {
      ReplaceFirstBag(s2, ' ', "");
    }
  }

  /** Which occurrences the cleaning edits: in "<a>,<b> €<c>", where the `€`
      after b is the first one, the comma after a the first comma and the
      space before the `€` the first space, exactly those three are edited,
      in place, and everything in c is left as it is, later copies of `€`,
      `,` and space included. */
  lemma FirstOfEachReplaced(a: string, b: string, c: string)
    requires '€' !in a && ',' !in a && ' ' !in a
    requires '€' !in b && ' ' !in b
    ensures Unspaced(a + "," + b + " €" + c) == a + "." + b + c
    ensures Normalize(a + "," + b + " €" + c)
         == if '/' in a + b + c then NotApplicable else Value(Trim(a + "." + b + c))
  {
    UnspacedInPlace(a, b, c);
    SlashKept(a, b, c);
  }

  lemma UnspacedInPlace(a: string, b: string, c: string)
    requires '€' !in a && ',' !in a && ' ' !in a
    requires '€' !in b && ' ' !in b
    ensures Unspaced(a + "," + b + " €" + c) == a + "." + b + c
  {
    var raw := a + "," + b + " €" + c;
    assert ReplaceFirst(raw, "€", "") == a + "," + b + " " + c by {
      assert raw == (a + "," + b + " ") + "€" + c;
      DropFirstEuro(a + "," + b + " ", c);
    }
    CommaThenSpace(a, b, c);
  }

  lemma CommaThenSpace(a: string, b: string, c: string)
    requires ',' !in a && ' ' !in a && ' ' !in b
    ensures ReplaceFirst(ReplaceFirst(a + "," + b + " " + c, ",", "."), " ", "") == a + "." + b + c
  {
    var s1 := a + "," + b + " " + c;
    var s2 := (a + "." + b) + " " + c;
    assert ReplaceFirst(s1, ",", ".") == s2 by {
      assert s1 == a + "," + (b + " " + c);
      assert s2 == a + "." + (b + " " + c);
      CommaToDot(a, b + " " + c);
    }
    DropFirstSpace(a + "." + b, c);
  }

  lemma SlashKept(a: string, b: string, c: string)
    ensures '/' in a + "," + b + " €" + c <==> '/' in a + b + c
  {
    var raw := a + "," + b + " €" + c;
    assert raw == a + ("," + b) + (" €" + c);
    assert '/' !in "," && '/' !in " €";
  }

  lemma DropFirstEuro(p: string, c: string)
    requires '€' !in p
    ensures ReplaceFirst(p + "€" + c, "€", "") == p + c
  {
    var s := p + "€" + c;
    assert s[..|p|] == p && s[|p| + 1..] == c;
    ReplaceFirstCharAt(s, '€', "", |p|);
  }

  lemma CommaToDot(p: string, c: string)
    requires ',' !in p
    ensures ReplaceFirst(p + "," + c, ",", ".") == p + "." + c
  {
    var s := p + "," + c;
    assert s[..|p|] == p && s[|p| + 1..] == c;
    ReplaceFirstCharAt(s, ',', ".", |p|);
  }

  lemma DropFirstSpace(p: string, c: string)
    requires ' ' !in p
    ensures ReplaceFirst(p + " " + c, " ", "") == p + c
  {
    var s := p + " " + c;
    assert s[..|p|] == p && s[|p| + 1..] == c;
    ReplaceFirstCharAt(s, ' ', "", |p|);
  }

  /** `normalizeAmount(raw)`. */
  function Normalize(raw: string): (a: Amount)
    ensures a.NotApplicable? <==> '/' in raw
    ensures a.Value? ==> a.cleaned == Trim(Unspaced(raw))
  {
    IncludesChar(raw, '/');
    if Includes(raw, "/") then NotApplicable else Value(Trim(Unspaced(raw)))
  }

  /** Text without `€`, `,`, space or `/` only loses its surrounding white space. */
  lemma PlainTextOnlyTrimmed(raw: string)
    requires '€' !in raw && ',' !in raw && ' ' !in raw && '/' !in raw
    ensures Normalize(raw) == Value(Trim(raw))
  {
    ReplaceFirstChars(raw, '€', "");
    ReplaceFirstChars(raw, ',', ".");
    ReplaceFirstChars(raw, ' ', "");
  }

  /** An amount the portal prints as "<int>,<dd> €" normalises to the same
      figure with a decimal point, which reads back as the same cents. */
  lemma EurosRoundTrip(cents: nat)
    ensures Normalize(Euros(cents)) == Value(Fixed2(cents))
    ensures ParseFixed2(Normalize(Euros(cents)).cleaned) == Some(cents)
  {
    var i, d := NatStr(cents / 100), Pad2(cents % 100);
    assert Euros(cents) == i + "," + d + " €";
    assert Fixed2(cents) == i + "." + d;
    EurosUnspaced(i, d);
    Fixed2RoundTrip(cents);
  }

  /** A digit string holds none of the characters the normaliser looks for. */
  lemma DigitsOnly(s: string)
    requires AllDigits(s)
    ensures '€' !in s && ',' !in s && ' ' !in s && '/' !in s
  {
    forall k | 0 <= k < |s| ensures s[k] !in {'€', ',', ' ', '/'} {
      assert IsDigit(s[k]);
    }
  }

  /** The three edits on "<digits>,<dd> €" leave "<digits>.<dd>", which has no
      white space left to trim. */
  lemma EurosUnspaced(i: string, d: string)
    requires |i| >= 1 && AllDigits(i) && |d| == 2 && AllDigits(d)
    ensures Normalize(i + "," + d + " €") == Value(i + "." + d)
  {
    var s3 := i + "." + d;
    DigitsOnly(i);
    DigitsOnly(d);
    FirstOfEachReplaced(i, d, "");
    assert i + "," + d + " €" + "" == i + "," + d + " €";
    assert s3 + "" == s3;
    DigitsTrimmed(i, d);
  }

  /** "<digits>.<dd>" has no white space at either end for `trim` to drop. */
  lemma DigitsTrimmed(i: string, d: string)
    requires |i| >= 1 && AllDigits(i) && |d| == 2 && AllDigits(d)
    ensures Trim(i + "." + d) == i + "." + d
  {
    var s3 := i + "." + d;
    assert s3[0] == i[0] && s3[|s3| - 1] == d[1];
    assert IsDigit(s3[0]) && IsDigit(s3[|s3| - 1]);
    TrimUnchanged(s3);
  }
}
