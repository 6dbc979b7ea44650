/** `ImageBatcher._find_images`: which images a run works on, and in what order. */
module Resolver {
  import opened Errors
  import opened Names
  import opened Ordering

  /** An image reference: a filesystem path, as the list of its parts. */
  type Path = seq<string>

  /** One entry `iterdir` lists: its final name and whether `is_file()` holds of it. */
  datatype Entry = Entry(name: string, isFile: bool)

  /** What exists at the input path: nothing, something that is not a directory, or a directory. */
  datatype Node = Missing | NonDirectory | Directory(entries: seq<Entry>)

  /** The comprehension's filter `is_image`. */
  predicate IsImage(e: Entry) {
    e.isFile && IsImageName(e.name)
  }

  /** How many entries of a directory listing are images. */
  function CountImages(entries: seq<Entry>): nat {
    if |entries| == 0 then 0 else (if IsImage(entries[0]) then 1 else 0) + CountImages(entries[1..])
  }

  /** The names of the image entries of a directory, in listing order. */
  function ImageNames(entries: seq<Entry>): (names: seq<string>)
    ensures |names| == CountImages(entries) <= |entries|
    ensures forall e :: e in entries && IsImage(e) ==> e.name in names
    ensures forall x :: x in names ==> exists e :: e in entries && IsImage(e) && e.name == x
  {
    if |entries| == 0 then []
    else
      var rest := ImageNames(entries[1..]);
      var names := if IsImage(entries[0]) then [entries[0].name] + rest else rest;
      assert forall x :: x in names ==> exists e :: e in entries && IsImage(e) && e.name == x by {
        forall x | x in names
          ensures exists e :: e in entries && IsImage(e) && e.name == x
        {
          if x in rest {
            var e :| e in entries[1..] && IsImage(e) && e.name == x;
            assert e in entries;
          } else {
            assert entries[0] in entries;
          }
        }
      }
      assert forall e :: e in entries && IsImage(e) ==> e.name in names by {
        forall e | e in entries && IsImage(e)
          ensures e.name in names
        {
          var k :| 0 <= k < |entries| && entries[k] == e;
          if k > 0 {
            assert entries[1..][k - 1] == e;
          }
        }
      }
      names
  }

  /** The paths `root / name` for each name, in order. */
  function Children(root: Path, names: seq<string>): seq<Path> {
    seq(|names|, i requires 0 <= i < |names| => root + [names[i]])
  }

  /** The list before shuffling: the sorted image children of a directory, or the path itself. */
  function Candidates(node: Node, input: Path): seq<Path>
    requires !node.Missing?
  {
    match node
    case Directory(entries) => Children(input, SortNames(ImageNames(entries)))
    case NonDirectory => [input]
  }

  /**
   * The draws `random.shuffle` makes: at step `i` it calls `randbelow(i + 1)`, so `pick(i)` is
   * the index it swaps with `i`, and it lies in `[0, i]`.
   */
  ghost predicate RandBelow(pick: nat -> nat) {
    forall i :: pick(i) <= i
  }

  /** Python's `s[i], s[j] = s[j], s[i]`. */
  function Swap<T>(s: seq<T>, i: nat, j: nat): seq<T>
    requires i < |s| && j < |s|
  {
    s[i := s[j]][j := s[i]]
  }

  /** What the swaps of `random.shuffle` for steps `i` down to 1 do to `s`. */
  function ShuffleSteps<T>(s: seq<T>, pick: nat -> nat, i: int): seq<T>
    requires RandBelow(pick) && i < |s|
    decreases i
  {
    if i <= 0 then s else ShuffleSteps(Swap(s, i, pick(i)), pick, i - 1)
  }

  lemma SwapPermutes<T>(s: seq<T>, i: nat, j: nat)
    requires i < |s| && j < |s|
    ensures |Swap(s, i, j)| == |s| && multiset(Swap(s, i, j)) == multiset(s)
  {
  }

  /** Each run of swaps only rearranges the list. */
  lemma {:induction false} ShuffleStepsPermute<T>(s: seq<T>, pick: nat -> nat, i: int)
    requires RandBelow(pick) && i < |s|
    ensures |ShuffleSteps(s, pick, i)| == |s|
    ensures multiset(ShuffleSteps(s, pick, i)) == multiset(s)
    decreases i
  {
    if i > 0 {
      SwapPermutes(s, i, pick(i));
      ShuffleStepsPermute(Swap(s, i, pick(i)), pick, i - 1);
    }
  }

  /** The list `random.shuffle` leaves behind, given the draws it made. */
  function Shuffled<T>(s: seq<T>, pick: nat -> nat): (r: seq<T>)
    requires RandBelow(pick)
    ensures |r| == |s| && multiset(r) == multiset(s)
  {
    ShuffleStepsPermute(s, pick, |s| - 1);
    ShuffleSteps(s, pick, |s| - 1)
  }

  /** `random.shuffle(images)`: the Fisher-Yates loop, swapping in place from the last index down. */
  method ShuffleInPlace<T>(a: array<T>, pick: nat -> nat)
    requires RandBelow(pick)
    modifies a
    ensures a[..] == Shuffled(old(a[..]), pick)
  {
    var i := a.Length - 1;
    while i > 0
      invariant -1 <= i < a.Length
      invariant ShuffleSteps(a[..], pick, i) == Shuffled(old(a[..]), pick)
    {
      ghost var before := a[..];
      var j := pick(i);
      var t := a[i];
      a[i] := a[j];
      a[j] := t;
      assert a[..] == Swap(before, i, j);
      i := i - 1;
    }
  }

  /** What `_find_images` returns or raises. */
  function Resolution(node: Node, input: Path, shuffle: bool, pick: nat -> nat): Result<seq<Path>>
    requires RandBelow(pick)
  {
    if node.Missing? then Err(NotFound)
    else
      var sorted := Candidates(node, input);
      var images := if shuffle then Shuffled(sorted, pick) else sorted;
      if |images| == 0 then Err(NoImages) else Ok(images)
  }

  /** `_find_images`: existence check, filtered and sorted listing, optional shuffle, emptiness check. */
  method FindImages(node: Node, input: Path, shuffle: bool, pick: nat -> nat) returns (r: Result<seq<Path>>)
    requires RandBelow(pick)
    ensures r == Resolution(node, input, shuffle, pick)
  {
    if node.Missing? {
      return Err(NotFound);
    }
    var images: seq<Path>;
    match node {
      case Directory(entries) =>
        images := Children(input, SortNames(ImageNames(entries)));
      case NonDirectory =>
        images := [input];
    }
    assert images == Candidates(node, input);
    if shuffle {
      var a := new Path[|images|](i requires 0 <= i < |images| => images[i]);
      assert a[..] == images;
      ShuffleInPlace(a, pick);
      images := a[..];
      assert images == Shuffled(Candidates(node, input), pick);
    }
    if |images| == 0 {
      return Err(NoImages);
    }
    return Ok(images);
  }

  /** Resolution fails exactly for a missing path, or a directory without image entries. */
  lemma ResolutionErrors(node: Node, input: Path, shuffle: bool, pick: nat -> nat)
    requires RandBelow(pick)
    ensures Resolution(node, input, shuffle, pick) == Err(NotFound) <==> node.Missing?
    ensures Resolution(node, input, shuffle, pick) == Err(NoImages) <==>
              node.Directory? && ImageNames(node.entries) == []
    ensures Resolution(node, input, shuffle, pick).Ok? ==> |Resolution(node, input, shuffle, pick).value| >= 1
  {
  }

  /** A directory resolves to one path per image entry, shuffled or not. */
  lemma ResolvedCountOfDirectory(entries: seq<Entry>, input: Path, shuffle: bool, pick: nat -> nat)
    requires RandBelow(pick)
    ensures Resolution(Directory(entries), input, shuffle, pick).Ok? <==> CountImages(entries) > 0
    ensures Resolution(Directory(entries), input, shuffle, pick).Ok? ==>
              |Resolution(Directory(entries), input, shuffle, pick).value| == CountImages(entries)
  {
    var sorted := Candidates(Directory(entries), input);
    assert |sorted| == CountImages(entries);
  }

  /** A path that exists and is not a directory resolves to itself alone, extension or not. */
  lemma ResolutionOfNonDirectory(input: Path, shuffle: bool, pick: nat -> nat)
    requires RandBelow(pick)
    ensures Resolution(NonDirectory, input, shuffle, pick) == Ok([input])
  {
  }

  /**
   * Without shuffling, a directory resolves to its image children in name order: for every
   * sorted rearrangement of the image names, the result is the children with those names.
   */
  lemma {:induction false} ResolutionOfDirectory(entries: seq<Entry>, input: Path, pick: nat -> nat, names: seq<string>)
    requires RandBelow(pick)
    requires Sorted(names) && multiset(names) == multiset(ImageNames(entries))
    requires names != []
    ensures Resolution(Directory(entries), input, false, pick) == Ok(Children(input, names))
  {
    SortedUnique(SortNames(ImageNames(entries)), names);
  }

  /** Without shuffling, a path is resolved from a directory exactly when it names an image entry of it. */
  lemma ResolvedPathsOfDirectory(entries: seq<Entry>, input: Path, pick: nat -> nat, p: Path)
    requires RandBelow(pick)
    requires Resolution(Directory(entries), input, false, pick).Ok?
    ensures p in Resolution(Directory(entries), input, false, pick).value <==>
              exists e :: e in entries && IsImage(e) && p == input + [e.name]
  {
    var sorted := SortNames(ImageNames(entries));
    assert Resolution(Directory(entries), input, false, pick).value == Children(input, sorted);
    if p in Children(input, sorted) {
      ChildIsImageEntry(entries, input, sorted, p);
    }
    if e :| e in entries && IsImage(e) && p == input + [e.name] {
      ImageEntryIsChild(entries, input, sorted, e);
    }
  }

  lemma ChildIsImageEntry(entries: seq<Entry>, input: Path, sorted: seq<string>, p: Path)
    requires multiset(sorted) == multiset(ImageNames(entries))
    requires p in Children(input, sorted)
    ensures exists e :: e in entries && IsImage(e) && p == input + [e.name]
  {
    var i :| 0 <= i < |sorted| && Children(input, sorted)[i] == p;
    assert sorted[i] in multiset(ImageNames(entries));
    assert sorted[i] in ImageNames(entries);
  }

  lemma ImageEntryIsChild(entries: seq<Entry>, input: Path, sorted: seq<string>, e: Entry)
    requires multiset(sorted) == multiset(ImageNames(entries))
    requires e in entries && IsImage(e)
    ensures input + [e.name] in Children(input, sorted)
  {
    assert e.name in multiset(sorted);
    var i :| 0 <= i < |sorted| && sorted[i] == e.name;
    assert Children(input, sorted)[i] == input + [e.name];
  }

  /** Shuffling fails and succeeds on the same inputs, and yields a rearrangement of the sorted list. */
  lemma ShuffleIsPermutation(node: Node, input: Path, pick: nat -> nat)
    requires RandBelow(pick)
    ensures Resolution(node, input, true, pick).Ok? == Resolution(node, input, false, pick).Ok?
    ensures Resolution(node, input, true, pick).Ok? ==>
              |Resolution(node, input, true, pick).value| == |Resolution(node, input, false, pick).value| &&
              multiset(Resolution(node, input, true, pick).value) == multiset(Resolution(node, input, false, pick).value)
  {
  }
}
