/** The names of the velocity counters: one per user, type, currency and window. */
module PolicyKeys {
  import opened Calendar
  import opened Text

  datatype Kind = DailyAmount | DailyCount | MonthlyAmount

  /** A number padded with zeros on the left. */
  function Padded(n: nat, width: nat): (s: string)
    ensures AllDigits(s) && |s| >= width && s != []
  {
    var digits := Itoa(n);
    Zeros(if width > |digits| then width - |digits| else 0) + digits
  }

  function Zeros(n: nat): (s: string)
    ensures |s| == n && forall i :: 0 <= i < n ==> s[i] == '0'
  {
    if n == 0 then [] else ['0'] + Zeros(n - 1)
  }

  /** t.Format("2006-01-02") and t.Format("2006-01"), for years from 0 on. */
  function DayText(d: Date): string
    requires d.year >= 0 && d.month >= 0 && d.day >= 0
  {
    Join([Padded(d.year, 4), Padded(d.month, 2), Padded(d.day, 2)], '-')
  }

  function MonthText(d: Date): string
    requires d.year >= 0 && d.month >= 0
  {
    Join([Padded(d.year, 4), Padded(d.month, 2)], '-')
  }

  predicate IsDefaultCurrency(currency: string) {
    currency == "" || currency == "IDR"
  }

  function Window(kind: Kind, d: Date): seq<string>
    requires d.year >= 0 && d.month >= 0 && d.day >= 0
  {
    match kind
    case DailyAmount => ["d", DayText(d), "amt"]
    case DailyCount => ["d", DayText(d), "cnt"]
    case MonthlyAmount => ["m", MonthText(d), "amt"]
  }

  function KeyParts(user: string, txType: string, currency: string, kind: Kind, d: Date): seq<string>
    requires d.year >= 0 && d.month >= 0 && d.day >= 0
  {
    (if IsDefaultCurrency(currency) then ["pol", user, txType] else ["pol", user, txType, "ccy", currency])
    + Window(kind, d)
  }

  /** The default currency keeps the short historical form. */
  function Key(user: string, txType: string, currency: string, kind: Kind, d: Date): string
    requires d.year >= 0 && d.month >= 0 && d.day >= 0
  {
    Join(KeyParts(user, txType, currency, kind, d), ':')
  }

  // ----- Different windows have different names -----

  lemma {:induction false} ZerosDoNotCount(n: nat, s: string)
    requires AllDigits(s)
    ensures AllDigits(Zeros(n) + s) && DigitsValue(Zeros(n) + s) == DigitsValue(s)
    decreases |s|
  {
    var t := Zeros(n) + s;
    if s == [] {
      assert t == Zeros(n);
      ZerosValue(n);
    } else {
      var init := s[..|s| - 1];
      ZerosDoNotCount(n, init);
      assert t[..|t| - 1] == Zeros(n) + init;
    }
  }

  lemma {:induction false} ZerosValue(n: nat)
    ensures AllDigits(Zeros(n)) && DigitsValue(Zeros(n)) == 0
  {
    if n > 0 {
      ZerosValue(n - 1);
      assert Zeros(n)[..n - 1] == Zeros(n - 1);
    }
  }

  lemma PaddedValue(n: nat, width: nat)
    ensures DigitsValue(Padded(n, width)) == n
  {
    var digits := Itoa(n);
    ZerosDoNotCount(if width > |digits| then width - |digits| else 0, digits);
    DigitsValueOfItoa(n);
  }

  lemma PaddedIsPlain(n: nat, width: nat, c: char)
    requires !IsDigit(c)
    ensures c !in Padded(n, width)
  {
    var s := Padded(n, width);
    assert forall i :: 0 <= i < |s| ==> IsDigit(s[i]);
  }

  lemma DayTextNames(a: Date, b: Date)
    requires a.year >= 0 && a.month >= 0 && a.day >= 0 && b.year >= 0 && b.month >= 0 && b.day >= 0
    ensures DayText(a) == DayText(b) <==> a == b
  {
    hide Padded, Join;
    if DayText(a) == DayText(b) {
      var p := [Padded(a.year, 4), Padded(a.month, 2), Padded(a.day, 2)];
      var q := [Padded(b.year, 4), Padded(b.month, 2), Padded(b.day, 2)];
      PaddedArePlain(a);
      PaddedArePlain(b);
      SplitOfJoin(p, '-');
      SplitOfJoin(q, '-');
      assert p == q;
      SamePadded(a.year, b.year, 4, p[0], q[0]);
      SamePadded(a.month, b.month, 2, p[1], q[1]);
      SamePadded(a.day, b.day, 2, p[2], q[2]);
    }
  }

  lemma SamePadded(a: nat, b: nat, width: nat, p: string, q: string)
    requires p == Padded(a, width) && q == Padded(b, width) && p == q
    ensures a == b
  {
    PaddedValue(a, width);
    PaddedValue(b, width);
  }

  lemma PaddedArePlain(d: Date)
    requires d.year >= 0 && d.month >= 0 && d.day >= 0
    ensures '-' !in Padded(d.year, 4) && '-' !in Padded(d.month, 2) && '-' !in Padded(d.day, 2)
  {
    PaddedIsPlain(d.year, 4, '-');
    PaddedIsPlain(d.month, 2, '-');
    PaddedIsPlain(d.day, 2, '-');
  }

  lemma MonthTextNames(a: Date, b: Date)
    requires a.year >= 0 && a.month >= 0 && a.day >= 0 && b.year >= 0 && b.month >= 0 && b.day >= 0
    ensures MonthText(a) == MonthText(b) <==> a.year == b.year && a.month == b.month
  {
    hide Padded, Join;
    if MonthText(a) == MonthText(b) {
      var p := [Padded(a.year, 4), Padded(a.month, 2)];
      var q := [Padded(b.year, 4), Padded(b.month, 2)];
      PaddedArePlain(a);
      PaddedArePlain(b);
      SplitOfJoin(p, '-');
      SplitOfJoin(q, '-');
      assert p == q;
      SamePadded(a.year, b.year, 4, p[0], q[0]);
      SamePadded(a.month, b.month, 2, p[1], q[1]);
    }
  }

  predicate Plain(s: string) {
    ':' !in s
  }

  lemma {:induction false} JoinPlain(parts: seq<string>, c: char, sep: char)
    requires parts != [] && c != sep && forall i :: 0 <= i < |parts| ==> c !in parts[i]
    ensures c !in Join(parts, sep)
  {
    if |parts| > 1 {
      JoinPlain(parts[1..], c, sep);
    }
  }

  lemma DateTextsPlain(d: Date)
    requires d.year >= 0 && d.month >= 0 && d.day >= 0
    ensures Plain(DayText(d)) && Plain(MonthText(d))
  {
    PaddedIsPlain(d.year, 4, ':');
    PaddedIsPlain(d.month, 2, ':');
    PaddedIsPlain(d.day, 2, ':');
    JoinPlain([Padded(d.year, 4), Padded(d.month, 2), Padded(d.day, 2)], ':', '-');
    JoinPlain([Padded(d.year, 4), Padded(d.month, 2)], ':', '-');
  }

  predicate SameWindow(kind: Kind, a: Date, b: Date) {
    a.year == b.year && a.month == b.month && (kind.MonthlyAmount? || a.day == b.day)
  }

  ghost predicate SameCurrency(a: string, b: string) {
    a == b || (IsDefaultCurrency(a) && IsDefaultCurrency(b))
  }

  lemma KeyPartsPlain(user: string, txType: string, currency: string, kind: Kind, d: Date)
    requires d.year >= 0 && d.month >= 0 && d.day >= 0
    requires Plain(user) && Plain(txType) && Plain(currency)
    ensures KeyParts(user, txType, currency, kind, d) != []
    ensures forall i :: 0 <= i < |KeyParts(user, txType, currency, kind, d)| ==>
              ':' !in KeyParts(user, txType, currency, kind, d)[i]
  {
    hide DayText, MonthText;
    DateTextsPlain(d);
  }

  lemma PartsNameWindow(user: string, txType: string, currency: string, kind: Kind, d: Date,
                        user': string, txType': string, currency': string, kind': Kind, d': Date)
    requires d.year >= 0 && d.month >= 0 && d.day >= 0 && d'.year >= 0 && d'.month >= 0 && d'.day >= 0
    ensures KeyParts(user, txType, currency, kind, d) == KeyParts(user', txType', currency', kind', d') <==>
            user == user' && txType == txType' && SameCurrency(currency, currency') && kind == kind'
                && SameWindow(kind, d, d')
  {
    hide DayText, MonthText;
    DayTextNames(d, d');
    MonthTextNames(d, d');
    var p, q := KeyParts(user, txType, currency, kind, d), KeyParts(user', txType', currency', kind', d');
    if p == q {
      assert |p| == |q| && p[1] == q[1] && p[2] == q[2];
      assert IsDefaultCurrency(currency) == IsDefaultCurrency(currency');
      var n := |p| - 3;
      assert p[n..] == Window(kind, d) && q[n..] == Window(kind', d');
      assert p[n] == q[n] && p[n + 1] == q[n + 1] && p[n + 2] == q[n + 2];
      if !IsDefaultCurrency(currency) {
        assert p[4] == q[4];
      }
    }
  }

  /**
   * Two counters share a name exactly when user, type, currency, kind and window agree; "" and IDR are
   * one currency.
   */
  lemma KeyNamesWindow(user: string, txType: string, currency: string, kind: Kind, d: Date,
                       user': string, txType': string, currency': string, kind': Kind, d': Date)
    requires d.year >= 0 && d.month >= 0 && d.day >= 0 && d'.year >= 0 && d'.month >= 0 && d'.day >= 0
    requires Plain(user) && Plain(txType) && Plain(currency) && Plain(user') && Plain(txType') && Plain(currency')
    ensures Key(user, txType, currency, kind, d) == Key(user', txType', currency', kind', d') <==>
            user == user' && txType == txType' && SameCurrency(currency, currency') && kind == kind'
                && SameWindow(kind, d, d')
  {
    hide KeyParts, Join, Split, DayText, MonthText;
    var p, q := KeyParts(user, txType, currency, kind, d), KeyParts(user', txType', currency', kind', d');
    KeyPartsPlain(user, txType, currency, kind, d);
    KeyPartsPlain(user', txType', currency', kind', d');
    SplitOfJoin(p, ':');
    SplitOfJoin(q, ':');
    PartsNameWindow(user, txType, currency, kind, d, user', txType', currency', kind', d');
  }

  /** What stands in a name for type and currency. */
  function Stem(txType: string, currency: string): string {
    if IsDefaultCurrency(currency) then txType else Join([txType, "ccy", currency], ':')
  }

  lemma KeyIsStem(user: string, txType: string, currency: string, kind: Kind, d: Date)
    requires d.year >= 0 && d.month >= 0 && d.day >= 0
    ensures Key(user, txType, currency, kind, d) ==
            Join(["pol", user], ':') + ":" + Stem(txType, currency) + ":" + Join(Window(kind, d), ':')
  {
    var stem := if IsDefaultCurrency(currency) then [txType] else [txType, "ccy", currency];
    assert KeyParts(user, txType, currency, kind, d) == ["pol", user] + stem + Window(kind, d);
    JoinTail(["pol", user] + stem, Window(kind, d), ':');
    JoinTail(["pol", user], stem, ':');
  }

  /** How the window is written. */
  function WindowText(kind: Kind, d: Date): string
    requires d.year >= 0 && d.month >= 0 && d.day >= 0
  {
    match kind
    case DailyAmount => "d:" + DayText(d) + ":amt"
    case DailyCount => "d:" + DayText(d) + ":cnt"
    case MonthlyAmount => "m:" + MonthText(d) + ":amt"
  }

  /** A name as text, with and without a foreign currency. */
  lemma KeyText(user: string, txType: string, currency: string, kind: Kind, d: Date)
    requires d.year >= 0 && d.month >= 0 && d.day >= 0
    ensures currency == "" || currency == "IDR" ==>
              Key(user, txType, currency, kind, d) == ("pol:" + user) + ":" + txType + ":" + WindowText(kind, d)
    ensures !(currency == "" || currency == "IDR") ==>
              Key(user, txType, currency, kind, d) ==
              ("pol:" + user) + ":" + (txType + ":" + "ccy" + ":" + currency) + ":" + WindowText(kind, d)
  {
    KeyIsStem(user, txType, currency, kind, d);
    JoinTwo("pol", user);
    assert "pol" + ":" + user == "pol:" + user;
    JoinThree(txType, "ccy", currency);
    WindowIsText(kind, d);
    hide Key, Join, Window, WindowText;
  }

  lemma WindowIsText(kind: Kind, d: Date)
    requires d.year >= 0 && d.month >= 0 && d.day >= 0
    ensures Window(kind, d) != [] && Join(Window(kind, d), ':') == WindowText(kind, d)
  {
    hide DayText, MonthText, Join;
    match kind
    case DailyAmount =>
      JoinThree("d", DayText(d), "amt");
      assert "d" + ":" + DayText(d) + ":" + "amt" == "d:" + DayText(d) + ":amt";
    case DailyCount =>
      JoinThree("d", DayText(d), "cnt");
      assert "d" + ":" + DayText(d) + ":" + "cnt" == "d:" + DayText(d) + ":cnt";
    case MonthlyAmount =>
      JoinThree("m", MonthText(d), "amt");
      assert "m" + ":" + MonthText(d) + ":" + "amt" == "m:" + MonthText(d) + ":amt";
  }

  lemma JoinTwo(a: string, b: string)
    ensures Join([a, b], ':') == a + ":" + b
  {
    assert [a, b][1..] == [b];
  }

  lemma JoinThree(a: string, b: string, c: string)
    ensures Join([a, b, c], ':') == a + ":" + b + ":" + c
  {
    assert [a, b, c][1..] == [b, c];
    JoinTwo(b, c);
  }

  lemma WindowPlain(kind: Kind, d: Date)
    requires d.year >= 0 && d.month >= 0 && d.day >= 0
    ensures |Window(kind, d)| == 3 && Split(Join(Window(kind, d), ':'), ':') == Window(kind, d)
  {
    hide DayText, MonthText, Join, Split;
    DateTextsPlain(d);
    SplitOfJoin(Window(kind, d), ':');
  }

  lemma KeySplits(user: string, txType: string, currency: string, kind: Kind, d: Date)
    requires d.year >= 0 && d.month >= 0 && d.day >= 0 && Plain(user)
    ensures Split(Key(user, txType, currency, kind, d), ':') ==
            ["pol", user] + Split(Stem(txType, currency), ':') + Window(kind, d)
  {
    WindowPlain(kind, d);
    hide Join, Split, Key, Stem, Window;
    var head, stem, tail := Join(["pol", user], ':'), Stem(txType, currency), Join(Window(kind, d), ':');
    KeyIsStem(user, txType, currency, kind, d);
    SplitConcat(head, stem, ':');
    SplitConcat(head + ":" + stem, tail, ':');
    SplitOfJoin(["pol", user], ':');
  }

  lemma WindowNames(kind: Kind, d: Date, kind': Kind, d': Date)
    requires d.year >= 0 && d.month >= 0 && d.day >= 0 && d'.year >= 0 && d'.month >= 0 && d'.day >= 0
    ensures Window(kind, d) == Window(kind', d') <==> kind == kind' && SameWindow(kind, d, d')
  {
    hide DayText, MonthText;
    DayTextNames(d, d');
    MonthTextNames(d, d');
    var p, q := Window(kind, d), Window(kind', d');
    if p == q {
      assert p[0] == q[0] && p[1] == q[1] && p[2] == q[2];
    }
  }

  /**
   * For any types and currencies: two counters share a name exactly when user, kind and window agree and
   * type and currency are written alike. A user is a UUID and has no colon.
   */
  lemma KeysEqualExactly(user: string, txType: string, currency: string, kind: Kind, d: Date,
                         user': string, txType': string, currency': string, kind': Kind, d': Date)
    requires d.year >= 0 && d.month >= 0 && d.day >= 0 && d'.year >= 0 && d'.month >= 0 && d'.day >= 0
    requires Plain(user) && Plain(user')
    ensures Key(user, txType, currency, kind, d) == Key(user', txType', currency', kind', d') <==>
            user == user' && Stem(txType, currency) == Stem(txType', currency') && kind == kind'
                && SameWindow(kind, d, d')
  {
    hide Join, Split, Key, Stem, Window;
    var s, t := Split(Stem(txType, currency), ':'), Split(Stem(txType', currency'), ':');
    var w, v := Window(kind, d), Window(kind', d');
    WindowNames(kind, d, kind', d');
    WindowPlain(kind, d);
    WindowPlain(kind', d');
    KeyIsStem(user, txType, currency, kind, d);
    KeyIsStem(user', txType', currency', kind', d');
    if Key(user, txType, currency, kind, d) == Key(user', txType', currency', kind', d') {
      KeySplits(user, txType, currency, kind, d);
      KeySplits(user', txType', currency', kind', d');
      SameMiddle(["pol", user], s, w, ["pol", user'], t, v);
      JoinOfSplit(Stem(txType, currency), ':');
      JoinOfSplit(Stem(txType', currency'), ':');
    }
  }

  lemma SameMiddle(p: seq<string>, s: seq<string>, w: seq<string>, q: seq<string>, t: seq<string>, v: seq<string>)
    requires p + s + w == q + t + v && |p| == |q| && |w| == |v|
    ensures p == q && s == t && w == v
  {
    assert p == (p + s + w)[..|p|] && q == (q + t + v)[..|p|];
    assert s == (p + s + w)[|p|..|p| + |s|] && t == (q + t + v)[|p|..|p| + |s|];
    assert w == (p + s + w)[|p| + |s|..] && v == (q + t + v)[|p| + |s|..];
  }

  /** So a type that spells out a currency segment would share the foreign-currency counter. */
  lemma ColonTypeCollides(user: string, txType: string, currency: string, kind: Kind, d: Date)
    requires d.year >= 0 && d.month >= 0 && d.day >= 0 && Plain(user) && !IsDefaultCurrency(currency)
    ensures Key(user, txType + ":ccy:" + currency, "", kind, d) == Key(user, txType, currency, kind, d)
  {
    hide Key;
    assert [txType, "ccy", currency][1..] == ["ccy", currency] && ["ccy", currency][1..] == [currency];
    assert Join([currency], ':') == currency && Join(["ccy", currency], ':') == "ccy:" + currency;
    assert Stem(txType, currency) == txType + ":" + ("ccy:" + currency) == txType + ":ccy:" + currency;
    KeysEqualExactly(user, txType + ":ccy:" + currency, "", kind, d, user, txType, currency, kind, d);
  }
}
