/** The X display identifier derived from a server number, `":<n>.0"`
    (screen 0 of display n), and its inverse. */
module Display {
  import opened Wrappers
  import opened Decimal

  /** getDisplayStrForServerNum */
  function DisplayStr(serverNum: int): (s: string)
    ensures |s| >= 4 && s[0] == ':' && s[|s| - 2..] == ".0"
    ensures serverNum >= 0 ==> AllDigits(s[1..|s| - 2])
  {
    ":" + IntToString(serverNum) + ".0"
  }

  /** Reads the server number back out of a display identifier of the form `":<n>.0"`. */
  function ParseDisplay(s: string): Option<int> {
    if |s| >= 3 && s[0] == ':' && s[|s| - 2..] == ".0" then ParseInt(s[1..|s| - 2]) else None
  }

  /** The identifier names the server number it was made from. */
  lemma DisplayStrRoundTrip(serverNum: int)
    ensures ParseDisplay(DisplayStr(serverNum)) == Some(serverNum)
  {
    var t := IntToString(serverNum);
    var s := DisplayStr(serverNum);
    assert |t| >= 1;
    assert s[1..|s| - 2] == t;
    assert s[|s| - 2..] == ".0";
    IntToStringRoundTrip(serverNum);
  }

  /** Every identifier of that form is the identifier of exactly the number it names. */
  lemma ParseDisplayInverse(s: string, serverNum: int)
    requires ParseDisplay(s) == Some(serverNum)
    ensures DisplayStr(serverNum) == s
  {
    ParseIntInverse(s[1..|s| - 2], serverNum);
    assert s == ":" + s[1..|s| - 2] + s[|s| - 2..];
  }

  /** Distinct server numbers never share a display identifier. */
  lemma DisplayStrInjective(m: int, n: int)
    requires DisplayStr(m) == DisplayStr(n)
    ensures m == n
  {
    DisplayStrRoundTrip(m);
    DisplayStrRoundTrip(n);
  }

  lemma DisplayStrExample()
    ensures DisplayStr(77) == ":77.0"
  {
    assert NatToString(77) == NatToString(7) + [DigitChar(7)];
  }
}
