/**
 * The two Jinja filters of filter_plugins/format_filters.py: the flattener
 * of a dictionary of lists into `key/item` paths, and the formatter of a
 * peer interface include list, which trims trailing non-letters from an
 * interface name. A dictionary is its items in iteration order.
 */
module FormatFilters {
  import opened Common

  /** A dictionary from keys to lists of names, in iteration order. */
  type ListMap = seq<(string, seq<string>)>

  /** The paths `k/ds` for one key, in list order. */
  function Prefixed(k: string, v: seq<string>): (r: seq<string>)
    ensures |r| == |v|
    ensures forall j :: 0 <= j < |v| ==> r[j] == k + "/" + v[j]
  {
    if v == [] then [] else [k + "/" + v[0]] + Prefixed(k, v[1..])
  }

  /** `convert_dict_of_lists_to_generator`: every key's paths, key by key;
      one path per list element. */
  function Flatten(m: ListMap): (r: seq<string>)
    ensures |r| == TotalLength(m)
  {
    if m == [] then [] else Prefixed(m[0].0, m[0].1) + Flatten(m[1..])
  }

  /** The sum of the list lengths. */
  function TotalLength(m: ListMap): nat {
    if m == [] then 0 else |m[0].1| + TotalLength(m[1..])
  }

  /** Flattening a concatenation flattens each part in turn. */
  lemma {:induction false} FlattenAppend(m1: ListMap, m2: ListMap)
    ensures Flatten(m1 + m2) == Flatten(m1) + Flatten(m2)
  {
    if m1 == [] {
      assert m1 + m2 == m2;
    } else {
      var p, rest := Prefixed(m1[0].0, m1[0].1), m1[1..] + m2;
      assert (m1 + m2)[0] == m1[0];
      assert (m1 + m2)[1..] == rest;
      assert Flatten(m1 + m2) == p + Flatten(rest);
      FlattenAppend(m1[1..], m2);
      assert Flatten(rest) == Flatten(m1[1..]) + Flatten(m2);
      assert p + (Flatten(m1[1..]) + Flatten(m2)) == (p + Flatten(m1[1..])) + Flatten(m2);
    }
  }

  /** The order: element j of key i's list comes after every path of the
      earlier keys and the first j paths of key i. */
  lemma FlattenAt(m: ListMap, i: int, j: int)
    requires 0 <= i < |m| && 0 <= j < |m[i].1|
    ensures TotalLength(m[..i]) + j < |Flatten(m)|
    ensures Flatten(m)[TotalLength(m[..i]) + j] == m[i].0 + "/" + m[i].1[j]
  {
    assert m == m[..i] + m[i..];
    FlattenAppend(m[..i], m[i..]);
    assert m[i..][0] == m[i];
    assert Flatten(m[i..]) == Prefixed(m[i].0, m[i].1) + Flatten(m[i..][1..]);
  }

  /** A path is produced exactly when it is `k/ds` for some key k and some
      element ds of k's list. */
  lemma {:induction false} FlattenMembership(m: ListMap, x: string)
    ensures x in Flatten(m) <==>
      exists i, j :: 0 <= i < |m| && 0 <= j < |m[i].1| && x == m[i].0 + "/" + m[i].1[j]
  {
    if m != [] {
      FlattenMembership(m[1..], x);
      var p := Prefixed(m[0].0, m[0].1);
      if x in p {
        var j :| 0 <= j < |p| && p[j] == x;
        assert 0 <= 0 < |m| && 0 <= j < |m[0].1| && x == m[0].0 + "/" + m[0].1[j];
      } else if x in Flatten(m[1..]) {
        var i, j :| 0 <= i < |m[1..]| && 0 <= j < |m[1..][i].1| && x == m[1..][i].0 + "/" + m[1..][i].1[j];
        assert m[i + 1] == m[1..][i];
      }
      if exists i, j :: 0 <= i < |m| && 0 <= j < |m[i].1| && x == m[i].0 + "/" + m[i].1[j] {
        var i, j :| 0 <= i < |m| && 0 <= j < |m[i].1| && x == m[i].0 + "/" + m[i].1[j];
        if i == 0 {
          assert p[j] == x;
        } else {
          assert m[1..][i - 1] == m[i];
        }
      }
    }
  }

  /** A key with an empty list contributes nothing. */
  lemma EmptyListContributesNothing(m1: ListMap, k: string, m2: ListMap)
    ensures Flatten(m1 + [(k, [])] + m2) == Flatten(m1 + m2)
  {
    var e: ListMap := [(k, [])];
    assert Flatten(e) == Prefixed(k, []) + Flatten(e[1..]);
    assert Flatten(e) == [];
    FlattenAppend(m1 + e, m2);
    FlattenAppend(m1, e);
    assert Flatten(m1 + e) == Flatten(m1);
    FlattenAppend(m1, m2);
  }

  /** Where the trimmed interface name ends: just after its last letter, or
      0 when it has none. */
  function TrimmedEnd(iface: string): (e: nat)
    ensures e <= |iface|
    ensures e == 0 || IsAlpha(iface[e - 1])
    ensures forall k :: e <= k < |iface| ==> !IsAlpha(iface[k])
    decreases |iface|
  {
    if iface == [] then 0
    else if IsAlpha(iface[|iface| - 1]) then |iface|
    else TrimmedEnd(iface[..|iface| - 1])
  }

  /** Any cut point after which there are only non-letters and before which
      there is a letter (or nothing) is the one `TrimmedEnd` finds. */
  lemma TrimmedEndUnique(iface: string, e: nat)
    requires e <= |iface|
    requires e == 0 || IsAlpha(iface[e - 1])
    requires forall k :: e <= k < |iface| ==> !IsAlpha(iface[k])
    ensures e == TrimmedEnd(iface)
  {
  }

  /** The include-list entry around a trimmed interface name. */
  function IncludeList(trimmed: string): string {
    "[\"^(" + trimmed + "*)\"]"
  }

  /** `fmt_confd_peer_iface_incl_list`: scan back from the end while the
      characters are not letters, then format the prefix that is left. */
  method FmtPeerIfaceInclList(iface: string) returns (r: string)
    ensures r == IncludeList(iface[..TrimmedEnd(iface)])
  {
    var end := |iface|;
    var i := |iface| - 1;
    while i >= 0
      invariant -1 <= i < |iface|
      invariant end == i + 1
      invariant forall k :: end <= k < |iface| ==> !IsAlpha(iface[k])
    {
      if IsAlpha(iface[i]) {
        break;
      }
      end := i;
      i := i - 1;
    }
    TrimmedEndUnique(iface, end);
    r := IncludeList(iface[..end]);
  }

  /** A name ending in a letter is kept whole; one without letters trims to
      the empty name; the trimmed name is a prefix of the original. */
  lemma TrimCases(iface: string)
    ensures iface[..TrimmedEnd(iface)] <= iface
    ensures |iface| > 0 && IsAlpha(iface[|iface| - 1]) ==> iface[..TrimmedEnd(iface)] == iface
    ensures (forall k :: 0 <= k < |iface| ==> !IsAlpha(iface[k])) ==> TrimmedEnd(iface) == 0
  {
    if |iface| > 0 && IsAlpha(iface[|iface| - 1]) {
      TrimmedEndUnique(iface, |iface|);
    }
    if forall k :: 0 <= k < |iface| ==> !IsAlpha(iface[k]) {
      TrimmedEndUnique(iface, 0);
    }
  }

  /** "eth10" keeps "eth"; "ib0a1" keeps "ib0a", since only the trailing
      non-letters go; "1234" leaves nothing. */
  lemma TrimExamples()
    ensures TrimmedEnd("eth10") == 3
    ensures TrimmedEnd("ib0a1") == 4
    ensures TrimmedEnd("1234") == 0
  {
    TrimmedEndUnique("eth10", 3);
    TrimmedEndUnique("ib0a1", 4);
    TrimmedEndUnique("1234", 0);
  }
}
