/**
 The `location` option of the platform: one station id, or several separated
 by commas. Splitting follows Python's `str.split(",")`: every comma separates,
 nothing is trimmed and empty pieces are kept.
 */
module Locations {

  const Separator: char := ','

  /** Number of occurrences of `c` in `s`. */
  function Count(s: string, c: char): nat
  {
    if s == [] then 0 else (if s[0] == c then 1 else 0) + Count(s[1..], c)
  }

  /** The pieces glued back together with `sep` between consecutive ones (Python's `sep.join`). */
  function Join(parts: seq<string>, sep: char): string
  {
    if |parts| == 0 then ""
    else if |parts| == 1 then parts[0]
    else parts[0] + [sep] + Join(parts[1..], sep)
  }

  /** Python's `s.split(sep)` for a one-character separator: one piece more
      than there are separators, and no piece contains the separator. */
  function Split(s: string, sep: char): (parts: seq<string>)
    ensures |parts| == Count(s, sep) + 1
    ensures forall i :: 0 <= i < |parts| ==> sep !in parts[i]
  {
    if s == [] then [""]
    else
      var rest := Split(s[1..], sep);
      if s[0] == sep then [""] + rest
      else [[s[0]] + rest[0]] + rest[1..]
  }

  /** Gluing the pieces back with the separator gives the original string. */
  lemma {:induction false} JoinSplit(s: string, sep: char)
    ensures Join(Split(s, sep), sep) == s
    decreases |s|
  {
    if s != [] {
      var rest := Split(s[1..], sep);
      JoinSplit(s[1..], sep);
      if s[0] == sep {
        assert ([""] + rest)[1..] == rest;
      } else {
        var parts := [[s[0]] + rest[0]] + rest[1..];
        if |rest| == 1 {
          assert s == [s[0]] + s[1..];
        } else {
          assert parts[1..] == rest[1..];
          assert Join(rest, sep) == rest[0] + [sep] + Join(rest[1..], sep);
          assert s == [s[0]] + s[1..];
        }
      }
    }
  }

  /** A string without the separator splits into itself alone. */
  lemma {:induction false} SplitWithoutSeparator(s: string, sep: char)
    requires sep !in s
    ensures Split(s, sep) == [s]
    decreases |s|
  {
    if s != [] {
      assert sep !in s[1..];
      SplitWithoutSeparator(s[1..], sep);
      assert s == [s[0]] + s[1..];
    }
  }

  /** A separator-free head followed by the separator splits off as one piece. */
  lemma {:induction false} SplitHead(a: string, b: string, sep: char)
    requires sep !in a
    ensures Split(a + [sep] + b, sep) == [a] + Split(b, sep)
    decreases |a|
  {
    var s := a + [sep] + b;
    if a == [] {
      assert s[1..] == b;
    } else {
      assert s[1..] == a[1..] + [sep] + b;
      assert sep !in a[1..];
      SplitHead(a[1..], b, sep);
      assert [a[0]] + a[1..] == a;
    }
  }

  /** Splitting undoes joining, provided no piece contains the separator:
      together with JoinSplit, Split and Join are inverse bijections. */
  lemma {:induction false} SplitJoin(parts: seq<string>, sep: char)
    requires |parts| >= 1
    requires forall i :: 0 <= i < |parts| ==> sep !in parts[i]
    ensures Split(Join(parts, sep), sep) == parts
    decreases |parts|
  {
    if |parts| == 1 {
      SplitWithoutSeparator(parts[0], sep);
    } else {
      SplitJoin(parts[1..], sep);
      SplitHead(parts[0], Join(parts[1..], sep), sep);
      assert [parts[0]] + parts[1..] == parts;
    }
  }

  /** The station ids `setup_platform` hands to `add_sensors`, in order: the
      comma-split pieces when the option contains a comma, else the whole
      option once. */
  function LocationIds(location: string): (ids: seq<string>)
    ensures Separator !in location ==> ids == [location]
    ensures |ids| == Count(location, Separator) + 1
    ensures forall i :: 0 <= i < |ids| ==> Separator !in ids[i]
    ensures Join(ids, Separator) == location
  {
    JoinSplit(location, Separator);
    if Separator in location then Split(location, Separator) else [location]
  }

  /** The ids are determined by the option: any comma-free pieces that glue back
      to it are exactly the ids, so each piece is handled once and in order. */
  lemma LocationIdsUnique(location: string, ids: seq<string>)
    requires |ids| >= 1
    requires forall i :: 0 <= i < |ids| ==> Separator !in ids[i]
    requires Join(ids, Separator) == location
    ensures LocationIds(location) == ids
  {
    SplitJoin(ids, Separator);
    JoinSplit(location, Separator);
    if Separator !in location {
      SplitWithoutSeparator(location, Separator);
    }
  }

  /** Pieces are neither trimmed nor dropped when empty. */
  lemma LocationIdsKeepSpacesAndEmpties()
    ensures LocationIds(",111, 222") == ["", "111", " 222"]
  {
    LocationIdsUnique(",111, 222", ["", "111", " 222"]);
  }
}
