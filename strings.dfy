/** Joining text parts with a separator, the two ways the map editor does it. */
module Strings {

  /** `sep + p1 + sep + p2 + ... + sep + pn`: every part preceded by the separator. */
  function Prefixed(parts: seq<string>, sep: string): string
  {
    if parts == [] then "" else sep + parts[0] + Prefixed(parts[1..], sep)
  }

  /** `p1 + sep + p2 + ... + sep + pn`: one separator between consecutive parts,
      as a stream collected with a joining collector produces it. */
  function Join(parts: seq<string>, sep: string): (r: string)
    ensures parts == [] ==> r == ""
    ensures |parts| == 1 ==> r == parts[0]
  {
    if parts == [] then "" else parts[0] + Prefixed(parts[1..], sep)
  }

  /** Prefixing distributes over concatenation of the part lists. */
  lemma {:induction false} PrefixedAppend(a: seq<string>, b: seq<string>, sep: string)
    ensures Prefixed(a + b, sep) == Prefixed(a, sep) + Prefixed(b, sep)
  {
    if a == [] {
      assert a + b == b;
    } else {
      assert (a + b)[1..] == a[1..] + b;
      PrefixedAppend(a[1..], b, sep);
      assert Prefixed(a + b, sep) == sep + a[0] + (Prefixed(a[1..], sep) + Prefixed(b, sep));
    }
  }

  /** A prefixed text of at least one part is the separator followed by the joined parts. */
  lemma PrefixedIsSepThenJoin(parts: seq<string>, sep: string)
    ensures parts != [] ==> Prefixed(parts, sep) == sep + Join(parts, sep)
  {
  }

  /** Joining two non-empty lists puts exactly one separator at the seam. */
  lemma JoinAppend(a: seq<string>, b: seq<string>, sep: string)
    requires a != [] && b != []
    ensures Join(a + b, sep) == Join(a, sep) + sep + Join(b, sep)
  {
    assert (a + b)[0] == a[0] && (a + b)[1..] == a[1..] + b;
    PrefixedAppend(a[1..], b, sep);
    PrefixedIsSepThenJoin(b, sep);
    assert Join(a + b, sep) == a[0] + (Prefixed(a[1..], sep) + (sep + Join(b, sep)));
  }

  /** Joining one more part adds the separator and that part at the end. */
  lemma JoinSnoc(parts: seq<string>, x: string, sep: string)
    requires parts != []
    ensures Join(parts + [x], sep) == Join(parts, sep) + sep + x
  {
    JoinAppend(parts, [x], sep);
  }
}
