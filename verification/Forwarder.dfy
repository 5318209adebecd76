/** The forwarder's table: lines of a listening port and a virtual address.

    A line is split by `strtok`, which works in the buffer it is given: the
    token's end is overwritten with a NUL, and the next call goes on behind
    it. Reading a table gives the entries of its lines in order, or fails as
    the source does on a line it cannot read. */
module Forwarder {
  import opened Packets
  import opened AddressText

  const NUL := '\0'

  /** A listening port and the address its packets go to; the address may be null. */
  datatype Entry = Entry(realPort: int, virtualAddr: Option<Address>)

  // ----- Tokens -----

  predicate Ends(c: char) {
    c == ';' || c == NUL
  }

  function SkipSemicolons(s: string): (r: string)
    ensures |r| <= |s| && r == s[|s| - |r|..]
    ensures forall k :: 0 <= k < |s| - |r| ==> s[k] == ';'
    ensures r != [] ==> r[0] != ';'
  {
    if s != [] && s[0] == ';' then SkipSemicolons(s[1..]) else s
  }

  /** The characters before the next semicolon or the end of the string. */
  function UpToEnd(s: string): (r: string)
    ensures |r| <= |s| && r == s[..|r|]
    ensures forall k :: 0 <= k < |r| ==> !Ends(s[k])
    ensures |r| < |s| ==> Ends(s[|r|])
  {
    if s == [] || Ends(s[0]) then [] else [s[0]] + UpToEnd(s[1..])
  }

  /** The next token of a C string, if one is left. */
  function Token(s: string): Option<string> {
    var t := SkipSemicolons(s);
    if UpToEnd(t) == [] then None else Some(UpToEnd(t))
  }

  /** What is left after it. */
  function AfterToken(s: string): string {
    var t := SkipSemicolons(s);
    var n := |UpToEnd(t)|;
    if n < |t| && t[n] == ';' then t[n + 1..] else t[n..]
  }

  /** The entry for a line. None where the source throws, or reads through a
      null pointer because a token is missing. */
  function ParseLine(line: string): Option<Entry> {
    match Token(line)
    case None => None
    case Some(port) =>
      match Stoi(port)
      case None => None
      case Some(realPort) =>
        match Token(AfterToken(line))
        case None => None
        case Some(text) =>
          match AddressFromString(text)
          case Threw => None
          case Null => Some(Entry(realPort, None))
          case Parsed(a) => Some(Entry(realPort, Some(a)))
  }

  /** The whole table, unless some line fails. */
  function ParseLines(lines: seq<string>): Option<seq<Entry>> {
    if lines == [] then Some([]) else
      match (ParseLine(lines[0]), ParseLines(lines[1..]))
      case (Some(entry), Some(rest)) => Some([entry] + rest)
      case _ => None
  }

  // ----- Splitting in place -----

  lemma {:induction false} SkipsTo(s: string, k: nat)
    requires k <= |s| && (forall i :: 0 <= i < k ==> s[i] == ';') && (k < |s| ==> s[k] != ';')
    ensures SkipSemicolons(s) == s[k..]
  {
    if k == 0 {
    } else {
      assert s[1..][k - 1..] == s[k..];
      SkipsTo(s[1..], k - 1);
    }
  }

  lemma SkipsBetween(s: string, start: nat, i: nat)
    requires start <= i < |s| && (forall k :: start <= k < i ==> s[k] == ';') && s[i] != ';'
    ensures SkipSemicolons(s[start..]) == s[i..]
  {
    hide SkipSemicolons;
    assert s[start..][i - start..] == s[i..];
    SkipsTo(s[start..], i - start);
  }

  lemma {:induction false} ScansTo(s: string, k: nat)
    requires k < |s| && (forall i :: 0 <= i < k ==> !Ends(s[i])) && Ends(s[k])
    ensures UpToEnd(s) == s[..k]
  {
    if k == 0 {
    } else {
      assert [s[0]] + s[1..][..k - 1] == s[..k];
      ScansTo(s[1..], k - 1);
    }
  }

  method SkipTo(buffer: array<char>, start: nat) returns (i: nat)
    requires start < buffer.Length && buffer[buffer.Length - 1] == NUL
    ensures start <= i < buffer.Length && buffer[i..] == SkipSemicolons(buffer[start..])
  {
    hide SkipSemicolons;
    i := start;
    while buffer[i] == ';'
      invariant start <= i < buffer.Length
      invariant forall k :: start <= k < i ==> buffer[k] == ';'
      decreases buffer.Length - i
    {
      i := i + 1;
    }
    SkipsBetween(buffer[..], start, i);
    assert buffer[..][start..] == buffer[start..] && buffer[..][i..] == buffer[i..];
  }

  method ScanTo(buffer: array<char>, start: nat) returns (j: nat)
    requires start < buffer.Length && buffer[buffer.Length - 1] == NUL
    ensures start <= j < buffer.Length && Ends(buffer[j])
    ensures buffer[start..j] == UpToEnd(buffer[start..])
  {
    hide UpToEnd;
    j := start;
    while !Ends(buffer[j])
      invariant start <= j < buffer.Length
      invariant forall k :: start <= k < j ==> !Ends(buffer[k])
      decreases buffer.Length - j
    {
      j := j + 1;
    }
    ScansTo(buffer[start..], j - start);
    assert buffer[start..][..j - start] == buffer[start..j];
  }

  /** `strtok` on the buffer from `start` on: the delimiter after the token is
      overwritten, and the search goes on behind it. */
  method Strtok(buffer: array<char>, start: nat) returns (token: Option<string>, next: nat)
    requires start < buffer.Length && buffer[buffer.Length - 1] == NUL
    modifies buffer
    ensures token == old(Token(buffer[start..]))
    ensures token.Some? ==> next < buffer.Length && buffer[next..] == old(AfterToken(buffer[start..]))
    ensures buffer[buffer.Length - 1] == NUL
  {
    hide SkipSemicolons, UpToEnd;
    var i := SkipTo(buffer, start);
    var j := ScanTo(buffer, i);
    assert Token(buffer[start..]) == if i == j then None else Some(buffer[i..j]);
    ghost var rest := AfterToken(buffer[start..]);
    assert rest == if buffer[j] == ';' then buffer[j + 1..] else buffer[j..] by {
      assert buffer[i..][j - i] == buffer[j] && |buffer[i..j]| == j - i;
    }
    hide Token, AfterToken;
    if i == j {
      return None, j;
    }
    token := Some(buffer[i..j]);
    next := j;
    if buffer[j] == ';' {
      next := j + 1;
      buffer[j] := NUL;
      assert buffer[next..] == rest;
    }
  }

  /** One line, copied into the buffer with its terminator. */
  method ReadEntry(line: string) returns (entry: Option<Entry>)
    ensures entry == ParseLine(line + [NUL])
  {
    hide Token, AfterToken, Stoi, AddressFromString;
    var buffer := new char[|line| + 1](i requires 0 <= i <= |line| => if i < |line| then line[i] else NUL);
    assert buffer[0..] == line + [NUL];
    var port, next := Strtok(buffer, 0);
    if port.None? {
      return None;
    }
    var realPort := Stoi(port.value);
    if realPort.None? {
      return None;
    }
    var text, _ := Strtok(buffer, next);
    if text.None? {
      return None;
    }
    var parsed := AddressFromString(text.value);
    match parsed
    case Threw => entry := None;
    case Null => entry := Some(Entry(realPort.value, None));
    case Parsed(a) => entry := Some(Entry(realPort.value, Some(a)));
  }

  function Terminated(lines: seq<string>): (r: seq<string>)
    ensures |r| == |lines| && forall i :: 0 <= i < |r| ==> r[i] == lines[i] + [NUL]
  {
    seq(|lines|, i requires 0 <= i < |lines| => lines[i] + [NUL])
  }

  lemma {:induction false} ParseLinesAppend(lines: seq<string>, line: string)
    ensures ParseLines(lines + [line]) ==
            match (ParseLines(lines), ParseLine(line)) case (Some(r), Some(e)) => Some(r + [e]) case _ => None
  {
    hide ParseLine;
    if lines == [] {
      assert [] + [line] == [line] && [line][1..] == [];
      assert ParseLines([]) == Some([]);
      if ParseLine(line).Some? {
        assert [ParseLine(line).value] + [] == [] + [ParseLine(line).value];
      }
    } else {
      assert (lines + [line])[1..] == lines[1..] + [line] && (lines + [line])[0] == lines[0];
      ParseLinesAppend(lines[1..], line);
      match (ParseLine(lines[0]), ParseLines(lines[1..]), ParseLine(line))
      case (Some(first), Some(rest), Some(last)) => assert [first] + (rest + [last]) == ([first] + rest) + [last];
      case _ =>
    }
  }

  lemma {:induction false} ParseLinesFails(lines: seq<string>, i: nat)
    requires i < |lines| && ParseLine(lines[i]).None?
    ensures ParseLines(lines).None?
  {
    hide ParseLine;
    if i == 0 {
    } else {
      ParseLinesFails(lines[1..], i - 1);
    }
  }

  /** The loop over the file's lines; a line that fails ends the program. */
  method ReadTable(lines: seq<string>) returns (table: Option<seq<Entry>>)
    ensures table == ParseLines(Terminated(lines))
  {
    hide ParseLine, ParseLines;
    var entries := [];
    assert ParseLines([]) == Some([]) by { NoLines(); }
    for i := 0 to |lines|
      invariant ParseLines(Terminated(lines)[..i]) == Some(entries)
    {
      ParseLinesAppend(Terminated(lines)[..i], Terminated(lines)[i]);
      assert Terminated(lines)[..i + 1] == Terminated(lines)[..i] + [Terminated(lines)[i]];
      var entry := ReadEntry(lines[i]);
      if entry.None? {
        ParseLinesFails(Terminated(lines), i);
        return None;
      }
      entries := entries + [entry.value];
    }
    assert Terminated(lines)[..|lines|] == Terminated(lines);
    table := Some(entries);
  }

  lemma NoLines()
    ensures ParseLines([]) == Some([])
  {
  }

  // ----- What a line says -----

  /** Neither semicolon nor NUL, and something at all. */
  predicate IsToken(s: string) {
    s != [] && forall i :: 0 <= i < |s| ==> s[i] != ';' && s[i] != NUL
  }

  predicate Semicolons(s: string) {
    forall i :: 0 <= i < |s| ==> s[i] == ';'
  }

  /** A token, with semicolons before it, ends at a semicolon or NUL. */
  lemma TokenBetween(before: string, token: string, end: char, rest: string)
    requires Semicolons(before) && IsToken(token) && Ends(end)
    ensures var s := before + (token + ([end] + rest));
      Token(s) == Some(token) && AfterToken(s) == if end == ';' then rest else [end] + rest
  {
    hide SkipSemicolons, UpToEnd;
    var t := token + ([end] + rest);
    var s := before + t;
    assert s[|before|] == token[0];
    SkipsTo(s, |before|);
    assert s[|before|..] == t;
    ScansTo(t, |token|);
    assert t[..|token|] == token && t[|token|] == end && t[|token| + 1..] == rest && t[|token|..] == [end] + rest;
  }

  lemma NoToken(before: string)
    requires Semicolons(before)
    ensures Token(before + [NUL]) == None
  {
    hide SkipSemicolons, UpToEnd;
    var s := before + [NUL];
    SkipsTo(s, |before|);
    assert s[|before|..] == [NUL];
    ScansTo([NUL], 0);
  }

  /** A line of two tokens, with any semicolons before and between them, is an
      entry unless one of the tokens makes the source throw; an address that
      cannot be split is kept as null. A line with fewer tokens has no entry. */
  lemma LineExactly(before: string, port: string, between: string, text: string)
    requires Semicolons(before) && Semicolons(between) && IsToken(port) && IsToken(text)
    ensures ParseLine(before + [NUL]) == None
    ensures ParseLine(before + (port + ([';'] + (between + [NUL])))) == None
    ensures ParseLine(before + (port + ([';'] + (between + (text + [NUL]))))) ==
            match (Stoi(port), AddressFromString(text))
            case (None, _) => None
            case (_, Threw) => None
            case (Some(n), Null) => Some(Entry(n, None))
            case (Some(n), Parsed(a)) => Some(Entry(n, Some(a)))
  {
    hide Token, AfterToken, Stoi, AddressFromString, IsToken, Semicolons;
    NoToken(before);
    TokenBetween(before, port, ';', between + [NUL]);
    NoToken(between);
    TokenBetween(before, port, ';', between + (text + [NUL]));
    assert text + [NUL] == text + ([NUL] + []);
    TokenBetween(between, text, NUL, []);
  }

  // ----- The lines configuration writes -----

  /** A line of the table as it is written, its newline included. */
  function TableLine(realPort: int, a: Address): string {
    ToString(realPort) + ";" + AddressToString(a) + "\n"
  }

  /** What configuration writes the forwarder reads back, exactly when the ip
      is not empty and has no colon, semicolon or NUL in it. */
  lemma TableLineRoundTrip(realPort: int, a: Address)
    requires INT_MIN <= realPort <= INT_MAX && INT_MIN <= a.port <= INT_MAX
    ensures ParseLine(TableLine(realPort, a) + [NUL]) == Some(Entry(realPort, Some(a))) <==>
            a.ip != [] && ':' !in a.ip && ';' !in a.ip && NUL !in a.ip
  {
    hide Stoi, ToString, Token, AfterToken, AddressFromString, AddressToString, ParseLine;
    var port := ToString(realPort);
    var rest := AddressToString(a) + "\n" + [NUL];
    assert TableLine(realPort, a) + [NUL] == port + ([';'] + rest);
    FirstToken(port, rest);
    StoiOfToString(realPort, []);
    assert port + [] == port;
    ParseInTwo(port + ([';'] + rest), port, realPort, rest, a);
    if a.ip != [] && ';' !in a.ip && NUL !in a.ip {
      SecondToken(a);
      AddressRoundTrip(a, "\n");
    } else {
      NotRead(a);
    }
  }

  lemma ParseInTwo(line: string, port: string, realPort: int, rest: string, a: Address)
    requires Token(line) == Some(port) && AfterToken(line) == rest && Stoi(port) == Some(realPort)
    ensures ParseLine(line) == Some(Entry(realPort, Some(a))) <==>
            Token(rest).Some? && AddressFromString(Token(rest).value) == Parsed(a)
  {
    hide Stoi, Token, AfterToken, AddressFromString;
  }

  lemma FirstToken(port: string, rest: string)
    requires port != [] && forall i :: 0 <= i < |port| ==> IsDigit(port[i]) || port[i] == '-'
    ensures Token(port + ([';'] + rest)) == Some(port) && AfterToken(port + ([';'] + rest)) == rest
  {
    var s := port + ([';'] + rest);
    SkipsTo(s, 0);
    assert s[0..] == s;
    ScansTo(s, |port|);
    assert s[..|port|] == port && s[|port| + 1..] == rest;
  }

  lemma SecondToken(a: Address)
    requires a.ip != [] && ';' !in a.ip && NUL !in a.ip
    ensures Token(AddressToString(a) + "\n" + [NUL]) == Some(AddressToString(a) + "\n")
  {
    var text := AddressToString(a) + "\n";
    var s := text + [NUL];
    SkipsTo(s, 0);
    assert s[0..] == s;
    forall i | 0 <= i < |text|
      ensures !Ends(s[i])
    {
      if i < |a.ip| {
        assert s[i] == a.ip[i] && a.ip[i] in a.ip;
      }
    }
    ScansTo(s, |text|);
    assert s[..|text|] == text;
  }

  /** A token has neither semicolon nor NUL, and an address read from it none either. */
  lemma NotRead(a: Address)
    requires a.ip == [] || ';' in a.ip || NUL in a.ip
    ensures Token(AddressToString(a) + "\n" + [NUL]) == None
            || AddressFromString(Token(AddressToString(a) + "\n" + [NUL]).value) != Parsed(a)
  {
    hide AddressFromString, AddressToString, Token;
    var line := AddressToString(a) + "\n" + [NUL];
    if Token(line).Some? {
      var text := Token(line).value;
      TokenIsClean(line);
      if AddressFromString(text).Parsed? {
        IpIsPrefix(text);
        var ip := AddressFromString(text).address.ip;
        forall i | 0 <= i < |ip|
          ensures !Ends(ip[i])
        {
          assert ip[i] == text[i];
        }
      }
    }
  }

  lemma TokenIsClean(s: string)
    requires Token(s).Some?
    ensures forall i :: 0 <= i < |Token(s).value| ==> !Ends(Token(s).value[i])
  {
    hide SkipSemicolons, UpToEnd;
    var t := SkipSemicolons(s);
    assert Token(s).value == UpToEnd(t) == t[..|UpToEnd(t)|];
  }

  lemma IpIsPrefix(text: string)
    requires AddressFromString(text).Parsed?
    ensures var ip := AddressFromString(text).address.ip; ip != [] && |ip| <= |text| && ip == text[..|ip|]
  {
    hide Stoi, IndexOf;
  }

  /** The first line of a table, for the node with id 0. */
  lemma LineSample()
    ensures TableLine(7999, Address("173.16.1.2", 8000)) == "7999" + ";" + "173.16.1.2:8000" + "\n"
  {
    hide ToString;
    AddressSamples();
  }
}
