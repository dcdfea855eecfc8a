/** `Card` of the older revision (Solitare/card.py): a value and a suit stored
    as given, with no check, and the two texts the board display uses. The
    card value is the `Cards.Card` pair; the suit is one of the four names. */
module LegacyCard {
  import opened Wrappers
  import opened Cards

  // ---------------------------------------------------------------------
  // __str__

  /** The rank letter `__str__` looks up: 'A', the digit, 'T', 'J', 'Q' or
      'K'; `None` outside 1..13, where the lookup raises `KeyError`. */
  function RankLetter(value: int): (r: Option<char>)
    ensures r.Some? <==> 1 <= value <= 13
    ensures 2 <= value <= 9 ==> r == Some(DigitChar(value))
  {
    if value == 1 then Some('A')
    else if 2 <= value <= 9 then Some(DigitChar(value))
    else if value == 10 then Some('T')
    else if value == 11 then Some('J')
    else if value == 12 then Some('Q')
    else if value == 13 then Some('K')
    else None
  }

  function DigitChar(d: int): (c: char)
    requires 0 <= d <= 9
  {
    (48 + d) as char
  }

  /** Thirteen ranks, thirteen different letters. */
  lemma RankLettersDistinct(v: int, w: int)
    requires 1 <= v <= 13 && 1 <= w <= 13 && RankLetter(v) == RankLetter(w)
    ensures v == w
  {
    if 2 <= v <= 9 && 2 <= w <= 9 {
      assert DigitChar(v) == DigitChar(w);
      assert (48 + v) as char as int == 48 + v;
    }
  }

  /** The error `__str__` raises for a value without a rank letter. */
  datatype TextError = KeyError(value: int)

  /** `str(card)`: the rank letter, a space, the suit's first letter and a
      trailing space. */
  function Str(c: Card): (r: Result<string, TextError>)
    ensures r.Ok? <==> 1 <= c.value <= 13
    ensures r.Err? ==> r.error == KeyError(c.value)
    ensures r.Ok? ==> |r.value| == 4 && Some(r.value[0]) == RankLetter(c.value)
    ensures r.Ok? ==> r.value[1] == ' ' && r.value[2] == SuitName(c.suit)[0] && r.value[3] == ' '
  {
    match RankLetter(c.value)
    case None => Err(KeyError(c.value))
    case Some(letter) => Ok([letter, ' ', SuitName(c.suit)[0], ' '])
  }

  /** The four suits have different initials. */
  lemma SuitInitialsDistinct(s: Suit, t: Suit)
    requires SuitName(s)[0] == SuitName(t)[0]
    ensures s == t
  {}

  /** The text of a card names it: two cards with the same text are the same
      card. */
  lemma StrDeterminesCard(a: Card, b: Card)
    requires Str(a).Ok? && Str(a) == Str(b)
    ensures a == b
  {
    var t := Str(a).value;
    RankLettersDistinct(a.value, b.value);
    SuitInitialsDistinct(a.suit, b.suit);
  }

  lemma StrOfKingOfSpades()
    ensures Str(Card(13, Spade)) == Ok("K S ")
  {}

  // ---------------------------------------------------------------------
  // __repr__

  /** The decimal digits of `n`, most significant first. */
  function Digits(n: nat): (s: string)
    ensures |s| > 0
    ensures forall k :: 0 <= k < |s| ==> '0' <= s[k] <= '9'
  {
    if n < 10 then [DigitChar(n)] else Digits(n / 10) + [DigitChar(n % 10)]
  }

  /** Python's `str` of an integer: a minus sign for negatives, then the
      digits. */
  function Decimal(n: int): (s: string)
    ensures |s| > 0
    ensures forall k :: 0 <= k < |s| ==> s[k] == '-' || '0' <= s[k] <= '9'
  {
    if n < 0 then "-" + Digits(-n) else Digits(n)
  }

  /** Reading digits back, most significant first. */
  function ReadDigits(s: string): int
  {
    if s == [] then 0 else ReadDigits(s[..|s| - 1]) * 10 + (s[|s| - 1] as int - 48)
  }

  function ReadDecimal(s: string): int
  {
    if |s| > 0 && s[0] == '-' then -ReadDigits(s[1..]) else ReadDigits(s)
  }

  lemma {:induction false} DigitsReadBack(n: nat)
    ensures ReadDigits(Digits(n)) == n
  {
    if n >= 10 {
      DigitsReadBack(n / 10);
      var s := Digits(n);
      assert s[..|s| - 1] == Digits(n / 10);
    }
  }

  /** The decimal text of an integer reads back as that integer. */
  lemma DecimalReadBack(n: int)
    ensures ReadDecimal(Decimal(n)) == n
  {
    if n < 0 {
      DigitsReadBack(-n);
      assert Decimal(n)[1..] == Digits(-n);
    } else {
      DigitsReadBack(n);
    }
  }

  const ReprHead: string := "'Value = "

  /** `repr(card)`: the quoted text `Value = v, Suit = s`. The text holds no
      quote or backslash, so Python quotes it with single quotes and escapes
      nothing. */
  function Repr(c: Card): (r: string)
    ensures |r| > |ReprHead| && r[..|ReprHead|] == ReprHead && r[|r| - 1] == '\''
  {
    ReprHead + ReprTail(c)
  }

  /** What follows the head: the value, then `, Suit = ` and the suit. */
  function ReprTail(c: Card): string
  {
    Decimal(c.value) + (", Suit = " + SuitName(c.suit) + "'")
  }

  /** The position of the first comma in `s`, or `|s|` when there is none. */
  function CommaAt(s: string): (k: nat)
    ensures k <= |s|
  {
    if s == [] || s[0] == ',' then 0 else 1 + CommaAt(s[1..])
  }

  /** A comma-free run followed by a comma: the first comma ends the run. */
  lemma {:induction false} CommaAfterRun(x: string, y: string)
    requires forall k :: 0 <= k < |x| ==> x[k] != ','
    requires |y| > 0 && y[0] == ','
    ensures CommaAt(x + y) == |x|
  {
    if x != [] {
      assert (x + y)[1..] == x[1..] + y;
      CommaAfterRun(x[1..], y);
    }
  }

  /** Two texts that run comma-free and then reach a comma are split at the
      same place. */
  lemma SplitAtComma(x: string, y: string, u: string, v: string)
    requires forall k :: 0 <= k < |x| ==> x[k] != ','
    requires forall k :: 0 <= k < |u| ==> u[k] != ','
    requires |y| > 0 && y[0] == ',' && |v| > 0 && v[0] == ','
    requires x + y == u + v
    ensures x == u && y == v
  {
    CommaAfterRun(x, y);
    CommaAfterRun(u, v);
    assert x == (x + y)[..|x|];
    assert u == (u + v)[..|u|];
    assert y == (x + y)[|x|..];
    assert v == (u + v)[|u|..];
  }

  /** The repr of a card names it: two cards with the same repr are the same
      card. */
  lemma ReprDeterminesCard(a: Card, b: Card)
    requires Repr(a) == Repr(b)
    ensures a == b
  {
    var h := |ReprHead|;
    var x, u := Decimal(a.value), Decimal(b.value);
    var y, v := ", Suit = " + SuitName(a.suit) + "'", ", Suit = " + SuitName(b.suit) + "'";
    assert ReprTail(a) == Repr(a)[h..];
    assert ReprTail(b) == Repr(b)[h..];
    assert x + y == u + v;
    SplitAtComma(x, y, u, v);
    DecimalReadBack(a.value);
    DecimalReadBack(b.value);
    assert SuitName(a.suit) == y[9..|y| - 1];
    assert SuitName(b.suit) == v[9..|v| - 1];
  }

  lemma ReprOfTenOfHearts()
    ensures Repr(Card(10, Heart)) == "'Value = 10, Suit = Heart'"
  {
    assert Digits(10) == "10";
  }
}
