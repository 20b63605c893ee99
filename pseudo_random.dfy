/**
  The deterministic text-file generator.  The file is filled with the hex
  digests of an md5 object that absorbs the seed once more before every
  digest; the last digest is cut so that the text is exactly `size`
  characters long.  Newlines are then written over positions drawn at random
  in 0..size and visited in ascending order.

  md5 itself is the parameter `hash`: any function whose every result is 32
  lower-case hex characters.  The random positions are the parameter `draws`.
 */
module PseudoRandom {
  import opened Wrappers

  const DigestLength: nat := 32
  const NewlineSpacing: nat := 40

  // ---------------------------------------------------------------------------
  // Digests
  // ---------------------------------------------------------------------------

  predicate IsHexChar(c: char) {
    '0' <= c <= '9' || 'a' <= c <= 'f'
  }

  predicate IsHexDigest(d: string) {
    |d| == DigestLength && forall k :: 0 <= k < |d| ==> IsHexChar(d[k])
  }

  /** What hexdigest() promises of md5: 32 hex characters for every input. */
  ghost predicate IsDigestFunction(hash: string -> string) {
    forall s :: IsHexDigest(hash(s))
  }

  /** seed written n times in a row. */
  function Repeat(seed: string, n: nat): (r: string)
    ensures |r| == n * |seed|
  {
    if n == 0 then [] else Repeat(seed, n - 1) + seed
  }

  /** An md5 object: the hash of everything update() has been given so far. */
  class Md5 {
    const hash: string -> string
    var absorbed: string

    constructor (hash: string -> string)
      ensures this.hash == hash && absorbed == []
    {
      this.hash := hash;
      absorbed := [];
    }

    method Update(s: string)
      modifies this
      ensures absorbed == old(absorbed) + s
    {
      absorbed := absorbed + s;
    }

    /** hexdigest(): 32 hex characters, the digest of everything absorbed. */
    function HexDigest(): (d: string)
      reads this
      requires IsDigestFunction(hash)
      ensures IsHexDigest(d)
    {
      hash(absorbed)
    }
  }

  // ---------------------------------------------------------------------------
  // The output file
  // ---------------------------------------------------------------------------

  /** data after writing s at `position`: s replaces what was there, the file
      grows when s runs past its end, and a gap before `position` is filled
      with NUL characters. */
  function WriteAt(data: string, position: nat, s: string): (r: string)
    ensures |r| == if position + |s| <= |data| then |data| else position + |s|
    ensures r[position..position + |s|] == s
    ensures forall k :: 0 <= k < |r| && !(position <= k < position + |s|) ==>
              r[k] == if k < |data| then data[k] else '\0'
  {
    var head := if position <= |data| then data[..position] else data + seq(position - |data|, _ => '\0');
    var tail := if position + |s| <= |data| then data[position + |s|..] else [];
    head + s + tail
  }

  /** A file opened for writing: its contents and the current position. */
  class TextFile {
    var contents: string
    var position: nat

    /** open(path, 'w') truncates the file. */
    constructor Open()
      ensures contents == [] && position == 0
    {
      contents := [];
      position := 0;
    }

    method Write(s: string)
      modifies this
      ensures contents == WriteAt(old(contents), old(position), s)
      ensures position == old(position) + |s|
    {
      contents := WriteAt(contents, position, s);
      position := position + |s|;
    }

    method Seek(p: nat)
      modifies this
      ensures contents == old(contents) && position == p
    {
      position := p;
    }
  }

  lemma WriteAtEnd(data: string, s: string)
    ensures WriteAt(data, |data|, s) == data + s
  {
  }

  // ---------------------------------------------------------------------------
  // Seed selection
  // ---------------------------------------------------------------------------

  /** The text after the last '/' of path (os.path.basename). */
  function Basename(path: string): (name: string)
    ensures '/' !in name
    ensures |name| <= |path| && path[|path| - |name|..] == name
    ensures |name| < |path| ==> path[|path| - |name| - 1] == '/'
  {
    if path == [] then []
    else if path[|path| - 1] == '/' then []
    else
      var name := Basename(path[..|path| - 1]) + [path[|path| - 1]];
      assert path[|path| - |name|..] == path[..|path| - 1][|path| - |name|..] + [path[|path| - 1]];
      name
  }

  /** The seed given, or else the final path component of the output file. */
  function SeedOf(outputFile: string, seed: Option<string>): (s: string)
    ensures seed.Some? ==> s == seed.value
    ensures seed.None? ==>
      && '/' !in s && |s| <= |outputFile| && outputFile[|outputFile| - |s|..] == s
      && (|s| < |outputFile| ==> outputFile[|outputFile| - |s| - 1] == '/')
  {
    if seed.None? then Basename(outputFile) else seed.value
  }

  // ---------------------------------------------------------------------------
  // The text before the newline phase
  // ---------------------------------------------------------------------------

  /** The number of iterations of `for i in range(0, size - 32, 32)`. */
  function FullChunkCount(size: int): (k: nat)
    ensures size > DigestLength ==> DigestLength * k < size <= DigestLength * (k + 1)
    ensures size <= DigestLength ==> k == 0
  {
    if size <= DigestLength then 0 else (size - DigestLength + DigestLength - 1) / DigestLength
  }

  /** The first k digests, the j-th (from 0) taken after j + 1 updates. */
  function Chunks(hash: string -> string, seed: string, k: nat): (text: string)
    requires IsDigestFunction(hash)
    ensures |text| == DigestLength * k
  {
    if k == 0 then [] else Chunks(hash, seed, k - 1) + hash(Repeat(seed, k))
  }

  /** The text the chunk loop and the cut tail write, for size > 32. */
  function Layout(hash: string -> string, seed: string, size: int): (text: string)
    requires IsDigestFunction(hash) && size > DigestLength
  {
    var k := FullChunkCount(size);
    Chunks(hash, seed, k) + hash(Repeat(seed, k + 1))[..size - DigestLength * k]
  }

  lemma {:induction false} ChunkAt(hash: string -> string, seed: string, k: nat, j: nat)
    requires IsDigestFunction(hash) && j < k
    ensures DigestLength * (j + 1) <= |Chunks(hash, seed, k)|
    ensures Chunks(hash, seed, k)[DigestLength * j..DigestLength * (j + 1)] == hash(Repeat(seed, j + 1))
  {
    var c := Chunks(hash, seed, k - 1);
    assert Chunks(hash, seed, k) == c + hash(Repeat(seed, k));
    if j < k - 1 {
      ChunkAt(hash, seed, k - 1, j);
      assert DigestLength * (j + 1) <= |c|;
    } else {
      assert DigestLength * j == |c|;
    }
  }

  /** For size > 32 the text is exactly `size` characters: chunk j is the
      digest of the seed written j + 1 times, and the tail, of length 1..32,
      is the start of the digest of the seed written k + 1 times. */
  lemma LayoutShape(hash: string -> string, seed: string, size: int, j: nat)
    requires IsDigestFunction(hash) && size > DigestLength
    ensures var text, k := Layout(hash, seed, size), FullChunkCount(size);
      && |text| == size
      && 1 <= size - DigestLength * k <= DigestLength
      && (j < k ==> text[DigestLength * j..DigestLength * (j + 1)] == hash(Repeat(seed, j + 1)))
      && text[DigestLength * k..] == hash(Repeat(seed, k + 1))[..size - DigestLength * k]
  {
    var text, k := Layout(hash, seed, size), FullChunkCount(size);
    var c := Chunks(hash, seed, k);
    assert IsHexDigest(hash(Repeat(seed, k + 1)));
    assert text == c + hash(Repeat(seed, k + 1))[..size - DigestLength * k];
    if j < k {
      ChunkAt(hash, seed, k, j);
      assert text[DigestLength * j..DigestLength * (j + 1)] == c[DigestLength * j..DigestLength * (j + 1)];
    }
  }

  lemma {:induction false} ChunksHex(hash: string -> string, seed: string, k: nat)
    requires IsDigestFunction(hash)
    ensures forall i :: 0 <= i < |Chunks(hash, seed, k)| ==> IsHexChar(Chunks(hash, seed, k)[i])
  {
    if k > 0 {
      ChunksHex(hash, seed, k - 1);
      assert IsHexDigest(hash(Repeat(seed, k)));
    }
  }

  /** Every character of the text is a hex digit. */
  lemma LayoutHex(hash: string -> string, seed: string, size: int)
    requires IsDigestFunction(hash) && size > DigestLength
    ensures forall i :: 0 <= i < |Layout(hash, seed, size)| ==> IsHexChar(Layout(hash, seed, size)[i])
  {
    var k := FullChunkCount(size);
    ChunksHex(hash, seed, k);
    assert IsHexDigest(hash(Repeat(seed, k + 1)));
  }

  // ---------------------------------------------------------------------------
  // The newline phase
  // ---------------------------------------------------------------------------

  /** The number of draws, one per element of range(0, size, 40). */
  function NewlineDrawCount(size: int): (n: nat)
    ensures size > 0 ==> NewlineSpacing * (n - 1) < size <= NewlineSpacing * n
    ensures size <= 0 ==> n == 0
  {
    if size <= 0 then 0 else (size + NewlineSpacing - 1) / NewlineSpacing
  }

  predicate Sorted(s: seq<int>) {
    forall i, j :: 0 <= i < j < |s| ==> s[i] <= s[j]
  }

  function Insert(x: int, s: seq<int>): (r: seq<int>)
    ensures forall y :: y in r <==> y == x || y in s
  {
    if s == [] || x <= s[0] then [x] + s else [s[0]] + Insert(x, s[1..])
  }

  /** sorted(draws): the draws in ascending order. */
  function Sort(s: seq<int>): (r: seq<int>)
    ensures forall y :: y in r <==> y in s
  {
    if s == [] then []
    else
      assert s == [s[0]] + s[1..];
      Insert(s[0], Sort(s[1..]))
  }

  lemma {:induction false} InsertCounts(x: int, s: seq<int>)
    ensures multiset(Insert(x, s)) == multiset(s) + multiset{x}
  {
    if s != [] && x > s[0] {
      InsertCounts(x, s[1..]);
      assert s == [s[0]] + s[1..];
    }
  }

  lemma {:induction false} InsertSorted(x: int, s: seq<int>)
    requires Sorted(s)
    ensures Sorted(Insert(x, s))
  {
    if s != [] && x > s[0] {
      var t := Insert(x, s[1..]);
      InsertSorted(x, s[1..]);
      InsertCounts(x, s[1..]);
      forall i | 0 <= i < |t|
        ensures s[0] <= t[i]
      {
        assert t[i] in multiset(t);
        if t[i] != x {
          assert t[i] in multiset(s[1..]);
        }
      }
      LeastFirst(s[0], t);
    }
  }

  lemma LeastFirst(x: int, t: seq<int>)
    requires Sorted(t) && forall i :: 0 <= i < |t| ==> x <= t[i]
    ensures Sorted([x] + t)
  {
    var u := [x] + t;
    forall i, j | 0 <= i < j < |u|
      ensures u[i] <= u[j]
    {
      if i > 0 {
        assert u[i] == t[i - 1] && u[j] == t[j - 1];
      }
    }
  }

  /** Sort puts the draws in ascending order and keeps each of them as often
      as it was drawn. */
  lemma {:induction false} SortSorted(s: seq<int>)
    ensures Sorted(Sort(s)) && multiset(Sort(s)) == multiset(s)
  {
    if s != [] {
      SortSorted(s[1..]);
      InsertSorted(s[0], Sort(s[1..]));
      InsertCounts(s[0], Sort(s[1..]));
      assert s == [s[0]] + s[1..];
    }
  }

  /** text after seek(p) and write('\n') for each p of positions in turn. */
  function WriteNewlines(text: string, positions: seq<int>): string
    requires forall p :: p in positions ==> 0 <= p
  {
    if positions == [] then text
    else
      var ps := positions[..|positions| - 1];
      assert forall q :: q in ps ==> q in positions;
      assert positions[|positions| - 1] in positions;
      WriteAt(WriteNewlines(text, ps), positions[|positions| - 1], "\n")
  }

  /** One seek(p) and write('\n') inside the file or at its end. */
  lemma NewlineAt(data: string, p: nat)
    requires p <= |data|
    ensures var r := WriteAt(data, p, "\n");
      && |r| == (if p == |data| then |data| + 1 else |data|)
      && r[p] == '\n'
      && forall i :: 0 <= i < |data| && i != p ==> r[i] == data[i]
  {
  }

  /** With every position in 0..|text|: each chosen position holds '\n', every
      other position keeps its character, and the text grows by one exactly
      when |text| itself is chosen. */
  lemma {:induction false} NewlinesPlaced(text: string, positions: seq<int>)
    requires forall p :: p in positions ==> 0 <= p <= |text|
    ensures var r := WriteNewlines(text, positions);
      && |r| == (if |text| in positions then |text| + 1 else |text|)
      && (forall p :: p in positions ==> r[p] == '\n')
      && (forall i :: 0 <= i < |text| && i !in positions ==> r[i] == text[i])
  {
    if positions != [] {
      var ps := positions[..|positions| - 1];
      var p := positions[|positions| - 1];
      assert positions == ps + [p];
      assert forall q :: q in ps ==> q in positions;
      assert p in positions;
      NewlinesPlaced(text, ps);
      var before := WriteNewlines(text, ps);
      var r := WriteAt(before, p, "\n");
      assert WriteNewlines(text, positions) == r;
      NewlineAt(before, p);
      assert |text| in positions <==> |text| in ps || p == |text|;
      if p == |before| {
        assert |before| == |text| && |r| == |text| + 1;
      } else {
        assert |r| == |before|;
      }
    }
  }

  // ---------------------------------------------------------------------------
  // The whole script
  // ---------------------------------------------------------------------------

  /** Line 20 reads the loop variable of a loop that never ran. */
  datatype ScriptError = NameError

  /** What the script leaves in the output file for size > 32. */
  function Output(hash: string -> string, seed: string, size: int, draws: seq<int>): string
    requires IsDigestFunction(hash) && size > DigestLength
    requires forall d :: d in draws ==> 0 <= d
  {
    WriteNewlines(Layout(hash, seed, size), Sort(draws))
  }

  /** The newline positions are ceil(size / 40) values in 0..size, in
      ascending order, each as often as it was drawn. */
  lemma NewlinePositions(size: int, draws: seq<int>)
    requires |draws| == NewlineDrawCount(size)
    requires forall d :: d in draws ==> 0 <= d <= size
    ensures var ps := Sort(draws);
      && |ps| == NewlineDrawCount(size) && Sorted(ps) && multiset(ps) == multiset(draws)
      && forall p :: p in ps ==> 0 <= p <= size
  {
    SortSorted(draws);
    var ps := Sort(draws);
    assert |ps| == |multiset(ps)| == |multiset(draws)| == |draws|;
    forall p | p in ps
      ensures 0 <= p <= size
    {
      assert p in multiset(ps);
      assert p in multiset(draws);
      assert p in draws;
    }
  }

  /** For size > 32 the file ends up `size` characters long, or one longer
      exactly when `size` itself was drawn; every drawn position holds '\n'
      and every other position keeps the hex digit the chunk phase wrote. */
  lemma OutputShape(hash: string -> string, seed: string, size: int, draws: seq<int>)
    requires IsDigestFunction(hash) && size > DigestLength
    requires forall d :: d in draws ==> 0 <= d <= size
    ensures var out, text := Output(hash, seed, size, draws), Layout(hash, seed, size);
      && |text| == size
      && |out| == (if size in draws then size + 1 else size)
      && (forall d :: d in draws ==> out[d] == '\n')
      && (forall i :: 0 <= i < size && i !in draws ==> out[i] == text[i] && IsHexChar(out[i]))
  {
    var text := Layout(hash, seed, size);
    var ps := Sort(draws);
    LayoutShape(hash, seed, size, 0);
    LayoutHex(hash, seed, size);
    NewlinesPlaced(text, ps);
  }

  /** Lines 15-20: writes the digest chunks and the cut tail to a freshly
      truncated file; fails with NameError when the loop never ran. */
  method WriteChunks(file: TextFile, hash: string -> string, seed: string, size: int)
    returns (r: Outcome<ScriptError>)
    requires IsDigestFunction(hash)
    requires file.contents == [] && file.position == 0
    modifies file
    ensures size <= DigestLength ==> r == Fail(NameError) && file.contents == []
    ensures size > DigestLength ==> r == Pass && file.contents == Layout(hash, seed, size)
  {
    var m := new Md5(hash);
    // `i` is unbound until the loop body first runs
    var last: Option<int> := None;
    var i := 0;
    ghost var k: nat := 0;
    while i < size - DigestLength
      invariant i == DigestLength * k
      invariant size > DigestLength ==> k <= FullChunkCount(size)
      invariant size <= DigestLength ==> k == 0
      invariant last.None? <==> k == 0
      invariant last.Some? ==> last.value == i - DigestLength
      invariant m.hash == hash && m.absorbed == Repeat(seed, k)
      invariant file.contents == Chunks(hash, seed, k) && file.position == |file.contents|
    {
      last := Some(i);
      m.Update(seed);
      var d := m.HexDigest();
      WriteAtEnd(file.contents, d);
      file.Write(d);
      i := i + DigestLength;
      k := k + 1;
    }
    m.Update(seed);
    if last.None? {
      return Fail(NameError);
    }
    assert k == FullChunkCount(size);
    var tail := m.HexDigest()[..size - (last.value + DigestLength)];
    WriteAtEnd(file.contents, tail);
    file.Write(tail);
    r := Pass;
  }

  /** Lines 22-24: seek to each position in ascending order and write '\n'. */
  method WriteNewlineMarks(file: TextFile, draws: seq<int>)
    requires forall d :: d in draws ==> 0 <= d
    modifies file
    ensures file.contents == WriteNewlines(old(file.contents), Sort(draws))
  {
    ghost var text := file.contents;
    var positions := Sort(draws);
    var j := 0;
    while j < |positions|
      invariant 0 <= j <= |positions|
      invariant forall q :: q in positions[..j] ==> q in positions
      invariant file.contents == WriteNewlines(text, positions[..j])
    {
      assert positions[..j + 1][..j] == positions[..j];
      assert positions[j] in positions;
      file.Seek(positions[j]);
      file.Write("\n");
      j := j + 1;
    }
    assert positions[..j] == positions;
  }

  /** Runs the script: opens the output file, writes the digest chunks and
      the cut tail, then the newlines at the sorted draws. */
  method Generate(hash: string -> string, outputFile: string, size: int, seed: Option<string>, draws: seq<int>)
    returns (file: TextFile, r: Outcome<ScriptError>)
    requires IsDigestFunction(hash)
    requires size > DigestLength ==> |draws| == NewlineDrawCount(size)
    requires size > DigestLength ==> forall d :: d in draws ==> 0 <= d <= size
    ensures fresh(file)
    ensures size <= DigestLength ==> r == Fail(NameError) && file.contents == []
    ensures size > DigestLength ==> r == Pass && file.contents == Output(hash, SeedOf(outputFile, seed), size, draws)
  {
    var s := SeedOf(outputFile, seed);
    file := new TextFile.Open();
    r := WriteChunks(file, hash, s, size);
    if r.Pass? {
      WriteNewlineMarks(file, draws);
    }
  }
}
