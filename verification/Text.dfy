/** Text order, decimal numbers and the cursor strings that travel between pages. */
module Text {
  import opened Common

  // ---- Order by code point ----

  predicate StrLess(a: string, b: string) {
    b != [] && (a == [] || a[0] < b[0] || (a[0] == b[0] && StrLess(a[1..], b[1..])))
  }

  lemma {:induction false} StrIrreflexive(a: string)
    ensures !StrLess(a, a)
  {
    if a != [] { StrIrreflexive(a[1..]); }
  }

  lemma {:induction false} StrTransitive(a: string, b: string, c: string)
    requires StrLess(a, b) && StrLess(b, c)
    ensures StrLess(a, c)
  {
    if a != [] && a[0] == b[0] && b[0] == c[0] { StrTransitive(a[1..], b[1..], c[1..]); }
  }

  lemma {:induction false} StrTotal(a: string, b: string)
    ensures a == b || StrLess(a, b) || StrLess(b, a)
  {
    if a != [] && b != [] && a[0] == b[0] {
      StrTotal(a[1..], b[1..]);
      assert a == [a[0]] + a[1..] && b == [b[0]] + b[1..];
    }
  }

  // ---- Decimal numbers ----

  predicate IsDigit(c: char) { '0' <= c <= '9' }

  function Digit(n: nat): char
    requires n < 10
  {
    ['0', '1', '2', '3', '4', '5', '6', '7', '8', '9'][n]
  }

  function ShowNat(n: nat): string { if n < 10 then [Digit(n)] else ShowNat(n / 10) + [Digit(n % 10)] }

  function Show(n: int): string { if n < 0 then "-" + ShowNat(-n) else ShowNat(n) }

  function ParseNat(s: string): Option<nat> {
    if s == [] || !IsDigit(s[|s| - 1]) then None
    else
      var d := (s[|s| - 1] - '0') as nat;
      if |s| == 1 then Some(d)
      else
        var high := ParseNat(s[..|s| - 1]);
        if high.None? then None else Some(10 * high.value + d)
  }

  /** `int(text)` for an optional sign followed by ASCII digits. */
  function ParseInt(s: string): Option<int> {
    var n := if s != [] && (s[0] == '-' || s[0] == '+') then ParseNat(s[1..]) else ParseNat(s);
    if n.None? then None
    else
      var v: int := n.value;
      Some(if s[0] == '-' then -v else v)
  }

  lemma {:induction false} ShowNatParses(n: nat)
    ensures ShowNat(n) != [] && ParseNat(ShowNat(n)) == Some(n)
    ensures forall c :: c in ShowNat(n) ==> IsDigit(c)
  {
    if n >= 10 {
      ShowNatParses(n / 10);
      var high := ShowNat(n / 10);
      assert ShowNat(n)[..|high|] == high;
    }
  }

  /** Printing a number and parsing it back is the identity. */
  lemma ShowParses(n: int)
    ensures ParseInt(Show(n)) == Some(n) && Show(n) != [] && '\t' !in Show(n)
  {
    if n < 0 { ShowNegative(n); } else { ShowPositive(n); }
  }

  lemma ShowNegative(n: int)
    requires n < 0
    ensures ParseInt(Show(n)) == Some(n) && Show(n) != [] && '\t' !in Show(n)
  {
    ShowNatParses(-n);
    Negated(ShowNat(-n), -n);
  }

  lemma Negated(digits: string, n: nat)
    requires ParseNat(digits) == Some(n) && forall c :: c in digits ==> IsDigit(c)
    ensures '\t' !in "-" + digits && ParseInt("-" + digits).Some? && ParseInt("-" + digits).value + n == 0
  {
    var s := "-" + digits;
    assert s[0] == '-' && s[1..] == digits;
    assert forall c :: c in s ==> c == '-' || c in digits;
  }

  lemma ShowPositive(n: nat)
    ensures ParseInt(Show(n)) == Some(n) && Show(n) != [] && '\t' !in Show(n)
  {
    ShowNatParses(n);
    assert ShowNat(n)[0] in ShowNat(n);
  }

  // ---- Tab-separated cursors ----

  /** `text.split("\t", 1)`, when there is a tab. */
  function SplitTab(s: string): Option<(string, string)> {
    if s == [] then None
    else if s[0] == '\t' then Some(("", s[1..]))
    else
      var rest := SplitTab(s[1..]);
      if rest.None? then None else Some(([s[0]] + rest.value.0, rest.value.1))
  }

  lemma {:induction false} SplitJoined(a: string, b: string)
    requires '\t' !in a
    ensures SplitTab(a + "\t" + b) == Some((a, b))
  {
    if a == [] {
      assert (a + "\t" + b)[1..] == b;
    } else {
      SplitJoined(a[1..], b);
      assert (a + "\t" + b)[1..] == a[1..] + "\t" + b;
      assert [a[0]] + a[1..] == a;
    }
  }

  /** The message cursor: receive time and row id. */
  function MessageCursor(receivedAt: int, id: int): string { Show(receivedAt) + "\t" + Show(id) }

  function ParseMessageCursor(s: string): Option<(int, int)> {
    var parts := SplitTab(s);
    if parts.None? then None
    else
      var at, id := ParseInt(parts.value.0), ParseInt(parts.value.1);
      if at.None? || id.None? then None else Some((at.value, id.value))
  }

  lemma MessageCursorParses(receivedAt: int, id: int)
    ensures ParseMessageCursor(MessageCursor(receivedAt, id)) == Some((receivedAt, id))
    ensures MessageCursor(receivedAt, id) != []
  {
    ShowParses(receivedAt);
    ShowParses(id);
    SplitJoined(Show(receivedAt), Show(id));
  }

  /** The target cursor: receive time, message id and room key. The room key may contain tabs. */
  function TargetCursor(receivedAt: int, id: int, room: string): string {
    Show(receivedAt) + "\t" + (Show(id) + "\t" + room)
  }

  function ParseTargetCursor(s: string): Option<(int, int, string)> {
    var parts := SplitTab(s);
    if parts.None? then None
    else
      var tail := SplitTab(parts.value.1);
      if tail.None? then None
      else
        var at, id := ParseInt(parts.value.0), ParseInt(tail.value.0);
        if at.None? || id.None? then None else Some((at.value, id.value, tail.value.1))
  }

  lemma TargetCursorParses(receivedAt: int, id: int, room: string)
    ensures ParseTargetCursor(TargetCursor(receivedAt, id, room)) == Some((receivedAt, id, room))
    ensures TargetCursor(receivedAt, id, room) != []
  {
    ShowParses(receivedAt);
    ShowParses(id);
    SplitJoined(Show(receivedAt), Show(id) + "\t" + room);
    SplitJoined(Show(id), room);
  }
}
