/**
 * The ifcfg rewriter of library/update_interface.py: every NAME and DEVICE
 * line of an interface configuration file is replaced by one naming the new
 * device, and the new file is written only when its content differs from
 * the original. A SHA-256 digest is modelled by the content it digests, so
 * two digests are equal exactly when the contents are.
 */
module UpdateInterface {
  import opened Common

  /** One line after the rewrite: a NAME line (checked first), then a DEVICE
      line, name the new device; every other line is kept. */
  function RewriteLine(line: string, device: string): (r: string)
    ensures StartsWith(r, "NAME") <==> StartsWith(line, "NAME")
    ensures !StartsWith(line, "NAME") ==> (StartsWith(r, "DEVICE") <==> StartsWith(line, "DEVICE"))
    ensures !StartsWith(line, "NAME") && !StartsWith(line, "DEVICE") ==> r == line
  {
    var named, deviced := "NAME=" + device + "\n", "DEVICE=" + device + "\n";
    assert named[..4] == "NAME";
    assert deviced[..6] == "DEVICE";
    assert deviced[3] != "NAME"[3];
    if StartsWith(line, "NAME") then named
    else if StartsWith(line, "DEVICE") then deviced
    else line
  }

  /** The whole file after the rewrite, line by line. */
  function Rewritten(lines: seq<string>, device: string): (r: seq<string>)
    ensures |r| == |lines|
    ensures forall i :: 0 <= i < |lines| ==> r[i] == RewriteLine(lines[i], device)
  {
    if lines == [] then [] else [RewriteLine(lines[0], device)] + Rewritten(lines[1..], device)
  }

  /** The rewrite loop, appending one line at a time. */
  method ReplaceNameAndDevice(lines: seq<string>, device: string) returns (newLines: seq<string>)
    ensures |newLines| == |lines|
    ensures forall i :: 0 <= i < |lines| && StartsWith(lines[i], "NAME") ==>
      newLines[i] == "NAME=" + device + "\n"
    ensures forall i :: 0 <= i < |lines| && !StartsWith(lines[i], "NAME") && StartsWith(lines[i], "DEVICE") ==>
      newLines[i] == "DEVICE=" + device + "\n"
    ensures forall i :: 0 <= i < |lines| && !StartsWith(lines[i], "NAME") && !StartsWith(lines[i], "DEVICE") ==>
      newLines[i] == lines[i]
    ensures newLines == Rewritten(lines, device)
  {
    newLines := [];
    var i := 0;
    while i < |lines|
      invariant i <= |lines|
      invariant |newLines| == i
      invariant forall k :: 0 <= k < i ==> newLines[k] == RewriteLine(lines[k], device)
    {
      var line := lines[i];
      if StartsWith(line, "NAME") {
        newLines := newLines + ["NAME=" + device + "\n"];
      } else if StartsWith(line, "DEVICE") {
        newLines := newLines + ["DEVICE=" + device + "\n"];
      } else {
        newLines := newLines + [line];
      }
      i := i + 1;
    }
  }

  lemma NameLineIsName(device: string)
    ensures StartsWith("NAME=" + device + "\n", "NAME")
  {
    assert ("NAME=" + device + "\n")[..4] == "NAME";
  }

  lemma DeviceLineIsDevice(device: string)
    ensures StartsWith("DEVICE=" + device + "\n", "DEVICE")
    ensures !StartsWith("DEVICE=" + device + "\n", "NAME")
  {
    assert ("DEVICE=" + device + "\n")[..6] == "DEVICE";
    assert ("DEVICE=" + device + "\n")[0] == 'D';
  }

  /** Rewriting a rewritten file changes nothing: a rewritten NAME line is
      still a NAME line and a rewritten DEVICE line is still a DEVICE line
      and not a NAME line. */
  lemma RewriteIdempotent(lines: seq<string>, device: string)
    ensures Rewritten(Rewritten(lines, device), device) == Rewritten(lines, device)
  {
    NameLineIsName(device);
    DeviceLineIsDevice(device);
    var once := Rewritten(lines, device);
    var twice := Rewritten(once, device);
    forall i | 0 <= i < |lines|
      ensures twice[i] == once[i]
    {
      assert twice[i] == RewriteLine(once[i], device);
    }
  }

  /** A file is left as it is exactly when each NAME line already reads
      `NAME=<device>` and each other DEVICE line already reads
      `DEVICE=<device>`, each with its newline. */
  lemma RewriteFixedPoint(lines: seq<string>, device: string)
    ensures Rewritten(lines, device) == lines <==>
      forall i :: 0 <= i < |lines| ==>
        (StartsWith(lines[i], "NAME") ==> lines[i] == "NAME=" + device + "\n")
        && (!StartsWith(lines[i], "NAME") && StartsWith(lines[i], "DEVICE") ==> lines[i] == "DEVICE=" + device + "\n")
  {
    var r := Rewritten(lines, device);
    if r == lines {
      forall i | 0 <= i < |lines|
        ensures StartsWith(lines[i], "NAME") ==> lines[i] == "NAME=" + device + "\n"
        ensures !StartsWith(lines[i], "NAME") && StartsWith(lines[i], "DEVICE") ==> lines[i] == "DEVICE=" + device + "\n"
      {
        assert r[i] == RewriteLine(lines[i], device);
      }
    }
  }

  /** A digest of a file's content, or the marker for a file that could not be read. */
  datatype Digest = NoDigest | ContentDigest(content: string)

  /** The I/O error of a failed read or write. */
  datatype IOError = IOError(errno: int, filename: string)

  /** Read the file, rewrite it, and write the new content to the destination
      unless it equals the original. `read` is what reading the source gave
      (its lines, or the error), `writeError` the error writing would raise.
      Returns whether the file was written, the (new, original) digest pair,
      the error, and (ghost) the content the destination is known to hold
      afterwards: the new content after a successful write, None when nothing
      was written or the write failed (the truncating open may already have
      emptied the destination, so its content is then unknown). */
  method WriteNewConfigFile(read: Result<seq<string>, IOError>, device: string, writeError: Option<IOError>)
    returns (changed: bool, digests: (Digest, Digest), err: Option<IOError>, ghost written: Option<string>)
    ensures read.Err? ==>
      !changed && digests == (NoDigest, NoDigest) && err == Some(read.error) && written == None
    ensures read.Ok? ==>
      digests == (ContentDigest(Concat(Rewritten(read.value, device))), ContentDigest(Concat(read.value)))
    ensures read.Ok? && Concat(Rewritten(read.value, device)) == Concat(read.value) ==>
      !changed && err == None && written == None
    ensures read.Ok? && Concat(Rewritten(read.value, device)) != Concat(read.value) ==>
      written == (if writeError.None? then Some(Concat(Rewritten(read.value, device))) else None)
      && (changed <==> writeError.None?) && err == writeError
  {
    if read.Err? {
      return false, (NoDigest, NoDigest), Some(read.error), None;
    }
    var tokens := read.value;
    var newTokens := ReplaceNameAndDevice(tokens, device);
    var originalContent := Concat(tokens);
    var newContent := Concat(newTokens);
    var originalDigest := ContentDigest(originalContent);
    var newDigest := ContentDigest(newContent);
    if originalDigest == newDigest {
      return false, (newDigest, originalDigest), None, None;
    }
    if writeError.Some? {
      return false, (newDigest, originalDigest), writeError, None;
    }
    return true, (newDigest, originalDigest), None, Some(newContent);
  }

  /** An already rewritten file is never written again. */
  lemma RewrittenFileUnchanged(lines: seq<string>, device: string)
    ensures Concat(Rewritten(Rewritten(lines, device), device)) == Concat(Rewritten(lines, device))
  {
    RewriteIdempotent(lines, device);
  }
}
