/** The two transforms the shell applies to the lines of a file: grouping a saved map's lines
    by five, one group per polygon, and folding a text file into one string. */
module Lines {
  import opened Strings

  /** Lines per polygon in a saved map. */
  const GROUP_SIZE: nat := 5

  function Min(a: int, b: int): int
  {
    if a <= b then a else b
  }

  /** The number of groups `n` lines fall into: n / 5 rounded up. */
  function GroupCount(n: nat): (count: nat)
    ensures count * GROUP_SIZE >= n
    ensures count > 0 ==> (count - 1) * GROUP_SIZE < n
  {
    (n + GROUP_SIZE - 1) / GROUP_SIZE
  }

  /** The lines key `k` collects: those at positions 5k up to 5k + 4 that exist. */
  function Chunk(lines: seq<string>, k: nat): seq<string>
    requires k < GroupCount(|lines|)
  {
    lines[GROUP_SIZE * k .. Min(GROUP_SIZE * k + GROUP_SIZE, |lines|)]
  }

  /** What grouping the lines by `position / 5` collects: every key below the group count,
      each with its lines in file order, the last group kept however short. */
  function Grouping(lines: seq<string>): (groups: map<nat, seq<string>>)
    ensures forall k: nat :: k in groups <==> k < GroupCount(|lines|)
  {
    var count := GroupCount(|lines|);
    map k: nat | k < count :: Chunk(lines, k)
  }

  /** There are as many groups as the group count says. */
  lemma GroupingSize(lines: seq<string>)
    ensures |Grouping(lines)| == GroupCount(|lines|)
  {
    var count := GroupCount(|lines|);
    assert Grouping(lines).Keys == KeyRange(count);
  }

  /** The keys below `n`. */
  function KeyRange(n: nat): (keys: set<nat>)
    ensures forall k: nat :: k in keys <==> k < n
    ensures |keys| == n
  {
    if n == 0 then {} else KeyRange(n - 1) + {n - 1}
  }

  /** The grouping of the lines in `loadMap`: a counter, incremented once per line, decides the
      key `counter / 5` under which the line is appended. */
  method GroupLines(lines: seq<string>) returns (groups: map<nat, seq<string>>)
    ensures groups == Grouping(lines)
  {
    groups := map[];
    var index := 0;
    while index < |lines|
      invariant index <= |lines|
      invariant groups == Grouping(lines[..index])
    {
      var line := lines[index];
      var key := index / GROUP_SIZE;
      index := index + 1;
      var group := if key in groups then groups[key] else [];
      GroupingSnoc(lines[..index - 1], line);
      assert lines[..index] == lines[..index - 1] + [line];
      groups := groups[key := group + [line]];
    }
    assert lines[..|lines|] == lines;
  }

  /** One more line goes to the end of the group of key `n / 5`, which it opens when `n` is a
      multiple of five. */
  lemma GroupingSnoc(prefix: seq<string>, line: string)
    ensures var g := Grouping(prefix); var key := |prefix| / GROUP_SIZE;
            Grouping(prefix + [line]) == g[key := (if key in g then g[key] else []) + [line]]
  {
    var n := |prefix|;
    var g := Grouping(prefix);
    var key := n / GROUP_SIZE;
    var a := Grouping(prefix + [line]);
    var b := g[key := (if key in g then g[key] else []) + [line]];
    assert GroupCount(n + 1) == key + 1;
    forall k | k in a
      ensures k in b && a[k] == b[k]
    {
      ChunkSnoc(prefix, line, k);
    }
    assert a.Keys == b.Keys;
  }

  /** The effect of one more line on the chunk of key `k`. */
  lemma ChunkSnoc(prefix: seq<string>, line: string, k: nat)
    requires k < GroupCount(|prefix| + 1)
    ensures k < |prefix| / GROUP_SIZE ==> k < GroupCount(|prefix|) && Chunk(prefix + [line], k) == Chunk(prefix, k)
    ensures k == |prefix| / GROUP_SIZE && |prefix| % GROUP_SIZE == 0 ==> Chunk(prefix + [line], k) == [line]
    ensures k == |prefix| / GROUP_SIZE && |prefix| % GROUP_SIZE != 0 ==>
              k < GroupCount(|prefix|) && Chunk(prefix + [line], k) == Chunk(prefix, k) + [line]
  {
    var n := |prefix|;
    var lines := prefix + [line];
    assert lines[..n] == prefix;
    if k < n / GROUP_SIZE {
      assert lines[GROUP_SIZE * k .. GROUP_SIZE * k + GROUP_SIZE] == prefix[GROUP_SIZE * k .. GROUP_SIZE * k + GROUP_SIZE];
    } else if n % GROUP_SIZE != 0 {
      assert lines[GROUP_SIZE * k .. n + 1] == prefix[GROUP_SIZE * k .. n] + [line];
    }
  }

  /** The line at position `i` is the `i % 5`-th line of the group under key `i / 5`. */
  lemma LinePlacement(lines: seq<string>, i: nat)
    requires i < |lines|
    ensures i / GROUP_SIZE in Grouping(lines)
    ensures i % GROUP_SIZE < |Grouping(lines)[i / GROUP_SIZE]|
    ensures Grouping(lines)[i / GROUP_SIZE][i % GROUP_SIZE] == lines[i]
  {
    var k := i / GROUP_SIZE;
    assert GROUP_SIZE * k + i % GROUP_SIZE == i;
    assert k < GroupCount(|lines|);
  }

  /** Every group but the last holds five lines; the last one holds the remaining `n % 5`
      lines, or five when five divides `n`. */
  lemma GroupSizes(lines: seq<string>)
    ensures forall k: nat :: k + 1 < GroupCount(|lines|) ==> |Grouping(lines)[k]| == GROUP_SIZE
    ensures |lines| > 0 ==>
              var last := GroupCount(|lines|) - 1;
              |Grouping(lines)[last]| == if |lines| % GROUP_SIZE == 0 then GROUP_SIZE else |lines| % GROUP_SIZE
  {
  }

  /** The groups with keys below `count`, concatenated in key order. */
  function Concat(groups: map<nat, seq<string>>, count: nat): seq<string>
    requires forall k: nat :: k < count ==> k in groups
  {
    if count == 0 then [] else Concat(groups, count - 1) + groups[count - 1]
  }

  /** Concatenating the groups in key order gives back the lines of the file. */
  lemma ConcatGrouping(lines: seq<string>)
    ensures Concat(Grouping(lines), GroupCount(|lines|)) == lines
  {
    ConcatPrefix(lines, GroupCount(|lines|));
    assert lines[..|lines|] == lines;
  }

  lemma {:induction false} ConcatPrefix(lines: seq<string>, count: nat)
    requires count <= GroupCount(|lines|)
    ensures Concat(Grouping(lines), count) == lines[..Min(GROUP_SIZE * count, |lines|)]
  {
    if count > 0 {
      ConcatPrefix(lines, count - 1);
      var lo, hi := GROUP_SIZE * (count - 1), Min(GROUP_SIZE * count, |lines|);
      assert lines[..hi] == lines[..lo] + lines[lo..hi];
    }
  }

  /** Twelve lines make three groups: two full ones and the trailing group of two lines. */
  lemma TwelveLines(lines: seq<string>)
    requires |lines| == 12
    ensures Grouping(lines).Keys == {0, 1, 2}
    ensures |Grouping(lines)[0]| == 5 && |Grouping(lines)[1]| == 5 && |Grouping(lines)[2]| == 2
  {
    assert GroupCount(12) == 3;
  }

  /** `reduce(acc, (a, b) -> a + sep + b)` over the lines, from the left. */
  function Reduce(acc: string, lines: seq<string>, sep: string): (r: string)
    ensures acc <= r
    ensures lines == [] ==> r == acc
    decreases lines
  {
    if lines == [] then acc else Reduce(acc + sep + lines[0], lines[1..], sep)
  }

  /** The fold puts the separator in front of every line. */
  lemma {:induction false} ReduceIsPrefixed(acc: string, lines: seq<string>, sep: string)
    ensures Reduce(acc, lines, sep) == acc + Prefixed(lines, sep)
    decreases lines
  {
    if lines != [] {
      ReduceIsPrefixed(acc + sep + lines[0], lines[1..], sep);
      assert acc + sep + lines[0] + Prefixed(lines[1..], sep)
          == acc + (sep + lines[0] + Prefixed(lines[1..], sep));
    }
  }

  /** What streaming a file's lines gives: all its lines; a failure to open the file, with the
      `IOException`'s message; or a failure while the lines are read, which the stream reports
      as an unchecked exception. */
  datatype ReadResult = Read(lines: seq<string>) | OpenFailed(message: string) | ReadBroken

  /** How `loadFile` ends: with a text, or with the unchecked exception escaping it. */
  datatype LoadOutcome = Text(text: string) | UncheckedIOException

  /** `loadFile`: the file's lines each preceded by the separator; when the file cannot be
      opened, a text saying which file was probably not found and why. A failure while the
      lines are read is not caught by the `IOException` handler and escapes. */
  function LoadFile(path: string, sep: string, read: ReadResult): (r: LoadOutcome)
    ensures r.Text? <==> !read.ReadBroken?
    ensures read.Read? ==> r.text == Prefixed(read.lines, sep)
    ensures read.Read? && read.lines == [] ==> r.text == ""
    ensures read.Read? && read.lines != [] ==> r.text == sep + Join(read.lines, sep)
    ensures read.OpenFailed? ==>
              r.text == "\"" + path + "\" was probably not found\nmessage: " + read.message
  {
    match read
    case Read(lines) =>
      ReduceIsPrefixed("", lines, sep);
      PrefixedIsSepThenJoin(lines, sep);
      Text(Reduce("", lines, sep))
    case OpenFailed(message) =>
      Text("\"" + path + "\" was probably not found" + "\nmessage: " + message)
    case ReadBroken =>
      UncheckedIOException
  }
}
