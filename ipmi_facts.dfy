/**
 * The fact parsers of library/ipmi_facts.py: the BMC address found in the
 * output of `ipmitool lan print`, given as its lines, and the check of the
 * DMI product name that tells a virtual machine from a physical one.
 */
module IpmiFacts {
  import opened Common

  /** Python's `s.split(":")`: the pieces between the colons, empty pieces
      included, so there is always at least one. */
  function SplitColon(s: string): (r: seq<string>)
    ensures |r| >= 1
    decreases |s|
  {
    if s == [] then [""]
    else
      var rest := SplitColon(s[1..]);
      if s[0] == ':' then [""] + rest else [[s[0]] + rest[0]] + rest[1..]
  }

  /** No piece holds a colon. */
  lemma {:induction false} SplitColonPieces(s: string)
    ensures forall i :: 0 <= i < |SplitColon(s)| ==> ':' !in SplitColon(s)[i]
    decreases |s|
  {
    if s != [] {
      SplitColonPieces(s[1..]);
      var rest := SplitColon(s[1..]);
      if s[0] != ':' {
        assert forall i :: 1 <= i < |SplitColon(s)| ==> SplitColon(s)[i] == rest[i];
      }
    }
  }

  /** Joining the pieces with colons gives the string back. */
  lemma {:induction false} SplitColonJoin(s: string)
    ensures Join(":", SplitColon(s)) == s
    decreases |s|
  {
    if s != [] {
      SplitColonJoin(s[1..]);
      var c, tail := s[0], s[1..];
      var rest := SplitColon(tail);
      var r := SplitColon(s);
      assert s == [c] + tail;
      if c == ':' {
        assert r == [""] + rest;
        assert r[1..] == rest;
      } else if |rest| == 1 {
        assert r == [[c] + rest[0]];
      } else {
        var head, more := rest[0], Join(":", rest[1..]);
        assert r == [[c] + head] + rest[1..];
        assert r[1..] == rest[1..];
        assert Join(":", r) == ([c] + head) + ":" + more;
        assert tail == head + ":" + more;
        JoinStep(c, head, more);
      }
    }
  }

  /** Moving the first character out of the first piece. */
  lemma JoinStep(c: char, head: string, more: string)
    ensures ([c] + head) + ":" + more == [c] + (head + ":" + more)
  {
  }

  /** The first piece is everything before the first colon; when there is a
      colon, the remaining pieces are the split of what follows it. */
  lemma {:induction false} SplitColonHead(s: string)
    ensures SplitColon(s)[0] <= s
    ensures ':' !in SplitColon(s)[0]
    ensures |SplitColon(s)[0]| < |s| ==>
      s[|SplitColon(s)[0]|] == ':' && SplitColon(s)[1..] == SplitColon(s[|SplitColon(s)[0]| + 1..])
    ensures |SplitColon(s)[0]| == |s| ==> |SplitColon(s)| == 1
    decreases |s|
  {
    if s != [] && s[0] != ':' {
      SplitColonHead(s[1..]);
      var rest := SplitColon(s[1..]);
      var c := |rest[0]|;
      assert SplitColon(s)[0] == [s[0]] + rest[0];
      assert SplitColon(s)[1..] == rest[1..];
      if c < |s[1..]| {
        assert s[1..][c + 1..] == s[c + 2..];
      }
    } else if s != [] {
      assert SplitColon(s)[1..] == SplitColon(s[1..]);
    }
  }

  /** A line of `ipmitool lan print` that carries the address: it starts with
      `IP Address ` and does not mention `Source` anywhere. */
  predicate AddressLine(line: string) {
    StartsWith(line, "IP Address ") && !Contains(line, "Source")
  }

  /** What `extract_ip_address` gives: no qualifying line (Python's None),
      the address text, or the IndexError of a qualifying line without a colon. */
  datatype IpAddress = NoAddress | Address(text: string) | IndexError

  /** `line.split(":")[1][1:]`: the text between the first colon and the
      next one (or the end), less its first character. */
  function FieldValue(line: string): (r: IpAddress)
    ensures r.IndexError? <==> ':' !in line
    ensures r != NoAddress
  {
    SplitColonHead(line);
    var pieces := SplitColon(line);
    if |pieces| < 2 then IndexError
    else Address(if pieces[1] == [] then [] else pieces[1][1..])
  }

  /** The text `FieldValue` returns, in terms of the colons of the line: with
      c the first colon, it is the colon-free text after c up to the next
      colon, less its first character. */
  lemma FieldValueText(line: string, c: nat)
    requires c < |line| && line[c] == ':' && ':' !in line[..c]
    ensures FieldValue(line).Address?
    ensures var field := SplitColon(line[c + 1..])[0];
      field <= line[c + 1..] && ':' !in field
      && (|field| == |line[c + 1..]| || line[c + 1 + |field|] == ':')
      && FieldValue(line).text == if field == [] then [] else field[1..]
  {
    SplitColonHead(line);
    var head := SplitColon(line)[0];
    assert |head| == c;
    SplitColonHead(line[c + 1..]);
  }

  /** `extract_ip_address`: the value of the first address line. */
  function ExtractIpAddress(lines: seq<string>): (r: IpAddress)
    ensures r == NoAddress <==> forall i :: 0 <= i < |lines| ==> !AddressLine(lines[i])
    ensures r != NoAddress ==>
      exists i :: (0 <= i < |lines| && AddressLine(lines[i])
                   && (forall k :: 0 <= k < i ==> !AddressLine(lines[k])) && r == FieldValue(lines[i]))
  {
    if lines == [] then NoAddress
    else if AddressLine(lines[0]) then FieldValue(lines[0])
    else
      var r := ExtractIpAddress(lines[1..]);
      assert forall i :: 1 <= i < |lines| ==> lines[i] == lines[1..][i - 1];
      if r != NoAddress then
        var i :| (0 <= i < |lines[1..]| && AddressLine(lines[1..][i])
                  && (forall k :: 0 <= k < i ==> !AddressLine(lines[1..][k])) && r == FieldValue(lines[1..][i]));
        assert AddressLine(lines[i + 1]) && r == FieldValue(lines[i + 1]);
        assert forall k :: 0 <= k < i + 1 ==> !AddressLine(lines[k]);
        r
      else r
  }

  /** Lines after the first address line are never consulted. */
  lemma ExtractStopsAtFirst(before: seq<string>, line: string, after: seq<string>)
    requires forall k :: 0 <= k < |before| ==> !AddressLine(before[k])
    requires AddressLine(line)
    ensures ExtractIpAddress(before + [line] + after) == FieldValue(line)
  {
    var lines := before + [line] + after;
    assert lines[|before|] == line;
    assert forall k :: 0 <= k < |before| ==> lines[k] == before[k];
  }

  /** A string starting with `sub` at some position contains it. */
  lemma {:induction false} ContainsAt(s: string, sub: string, i: nat)
    requires i <= |s| && StartsWith(s[i..], sub)
    ensures Contains(s, sub)
    decreases i
  {
    if i > 0 {
      assert s[1..][i - 1..] == s[i..];
      ContainsAt(s[1..], sub, i - 1);
    }
  }

  /** A line mentioning `Source` anywhere is skipped, whatever it starts with. */
  lemma SourceLineSkipped(line: string, i: nat)
    requires i <= |line| && StartsWith(line[i..], "Source")
    ensures !AddressLine(line)
  {
    ContainsAt(line, "Source", i);
  }

  /** Python's `str.lower`, character by character (ASCII). */
  function Lowered(s: string): (r: string)
    ensures |r| == |s|
    ensures forall i :: 0 <= i < |s| ==> r[i] == ToLower(s[i])
  {
    if s == [] then [] else [ToLower(s[0])] + Lowered(s[1..])
  }

  /** `is_vm` on the first line of the DMI product name: the lowercased
      line starts with `vm`. */
  predicate IsVm(firstLine: string): (r: bool)
    ensures r ==> |firstLine| >= 2 && ToLower(firstLine[0]) == 'v' && ToLower(firstLine[1]) == 'm'
  {
    StartsWith(Lowered(firstLine), "vm")
  }

  /** A product name is a VM's exactly when it starts with `v` or `V` and
      then `m` or `M`. */
  lemma IsVmCases(firstLine: string)
    ensures IsVm(firstLine) <==>
      |firstLine| >= 2 && firstLine[0] in "vV" && firstLine[1] in "mM"
  {
    if |firstLine| >= 2 {
      var low := Lowered(firstLine);
      assert low[..2] == [low[0], low[1]];
      assert "vm" == ['v', 'm'];
    }
  }
}
