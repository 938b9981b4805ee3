/** The text primitives of the source language that the parsers rely on. */
module PyText {
  // What `\s` and `str.strip` take for whitespace, as code points.
  predicate IsSpace(c: char) {
    var n := c as int;
    || 0x09 <= n <= 0x0D || 0x1C <= n <= 0x20 || n == 0x85 || n == 0xA0 || n == 0x1680
    || 0x2000 <= n <= 0x200A || n == 0x2028 || n == 0x2029 || n == 0x202F || n == 0x205F || n == 0x3000
  }

  predicate Trimmed(s: string) {
    s == "" || (!IsSpace(s[0]) && !IsSpace(s[|s| - 1]))
  }

  function StripLeft(s: string): (r: string)
    ensures |r| <= |s| && (r == "" || !IsSpace(r[0]))
    ensures s == "" || !IsSpace(s[0]) ==> r == s
    ensures r != "" ==> s != "" && r[|r| - 1] == s[|s| - 1]
  {
    if s != "" && IsSpace(s[0]) then StripLeft(s[1..]) else s
  }

  function StripRight(s: string): (r: string)
    ensures |r| <= |s| && r <= s && (r == "" || !IsSpace(r[|r| - 1]))
    ensures s == "" || !IsSpace(s[|s| - 1]) ==> r == s
  {
    if s != "" && IsSpace(s[|s| - 1]) then StripRight(s[..|s| - 1]) else s
  }

  function Strip(s: string): (r: string)
    ensures |r| <= |s| && Trimmed(r)
    ensures Trimmed(s) ==> r == s
  {
    StripRight(StripLeft(s))
  }

  predicate Blank(s: string) {
    forall c :: c in s ==> IsSpace(c)
  }

  lemma {:induction false} StripLeftBlank(lead: string, s: string)
    requires Blank(lead)
    ensures StripLeft(lead + s) == StripLeft(s)
    decreases |lead|
  {
    if lead == "" {
      assert lead + s == s;
    } else {
      assert lead[0] in lead && lead == [lead[0]] + lead[1..];
      assert (lead + s)[1..] == lead[1..] + s;
      StripLeftBlank(lead[1..], s);
    }
  }

  lemma {:induction false} StripRightBlank(s: string, tail: string)
    requires Blank(tail)
    ensures StripRight(s + tail) == StripRight(s)
    decreases |tail|
  {
    if tail == "" {
      assert s + tail == s;
    } else {
      var front := tail[..|tail| - 1];
      assert tail[|tail| - 1] in tail && forall c :: c in front ==> c in tail;
      assert (s + tail)[..|s + tail| - 1] == s + front;
      StripRightBlank(s, front);
    }
  }

  // What is left is the trimmed text between the whitespace at either end, whatever it is.
  lemma StripExactly(lead: string, s: string, tail: string)
    requires Blank(lead) && Blank(tail) && Trimmed(s)
    ensures Strip(lead + s + tail) == s
  {
    assert lead + s + tail == lead + (s + tail);
    StripLeftBlank(lead, s + tail);
    if s == "" {
      assert s + tail == tail == tail + "";
      StripLeftBlank(tail, "");
    } else {
      StripRightBlank(s, tail);
    }
  }

  // The characters Python counts as whitespace, one by one.
  lemma SpacesExactly(c: char)
    ensures IsSpace(c) <==>
      || c == '\U{0009}' || c == '\U{000A}' || c == '\U{000B}' || c == '\U{000C}' || c == '\U{000D}'
      || c == '\U{001C}' || c == '\U{001D}' || c == '\U{001E}' || c == '\U{001F}' || c == '\U{0020}'
      || c == '\U{0085}' || c == '\U{00A0}' || c == '\U{1680}' || c == '\U{2000}' || c == '\U{2001}'
      || c == '\U{2002}' || c == '\U{2003}' || c == '\U{2004}' || c == '\U{2005}' || c == '\U{2006}'
      || c == '\U{2007}' || c == '\U{2008}' || c == '\U{2009}' || c == '\U{200A}' || c == '\U{2028}'
      || c == '\U{2029}' || c == '\U{202F}' || c == '\U{205F}' || c == '\U{3000}'
  {
  }

  function Decimal(n: nat): string {
    if n < 10 then [('0' as int + n) as char] else Decimal(n / 10) + [('0' as int + n % 10) as char]
  }

  // A numeral, and the number it is read as.

  predicate Numeral(s: string) {
    && s != "" && (forall c :: c in s ==> '0' <= c <= '9')
    && (s[0] == '0' ==> |s| == 1)
  }

  function Read(s: string): int {
    if s == "" then 0 else 10 * Read(s[..|s| - 1]) + (s[|s| - 1] as int - '0' as int)
  }

  lemma {:induction false} DecimalIsRead(n: nat)
    ensures Numeral(Decimal(n)) && Read(Decimal(n)) == n
    ensures n > 0 ==> Decimal(n)[0] != '0'
  {
    if n < 10 {
      assert Decimal(n)[..0] == "";
    } else {
      DecimalIsRead(n / 10);
      var s := Decimal(n);
      assert s[..|s| - 1] == Decimal(n / 10);
    }
  }

  lemma {:induction false} ReadIsDecimal(s: string)
    requires Numeral(s)
    ensures Read(s) >= 0 && Decimal(Read(s)) == s
    ensures s[0] != '0' ==> Read(s) > 0
    decreases |s|
  {
    var front, d := s[..|s| - 1], s[|s| - 1] as int - '0' as int;
    assert s[|s| - 1] in s && s == front + [s[|s| - 1]];
    if front == "" {
      assert Read(s) == d;
    } else {
      assert forall c :: c in front ==> c in s;
      ReadIsDecimal(front);
      assert front[0] == s[0] && Read(s) == 10 * Read(front) + d;
      assert Read(s) / 10 == Read(front) && Read(s) % 10 == d;
    }
  }
}
