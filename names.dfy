/** File-name handling of the resolver: `Path.suffix`, `str.lower` and the recognised extensions. */
module Names {

  /** `str.lower` on one character, for the ASCII letters. */
  function LowerChar(c: char): (d: char)
    ensures 'A' <= c <= 'Z' ==> 'a' <= d <= 'z' && d as int - c as int == 32
    ensures !('A' <= c <= 'Z') ==> d == c
  {
    if 'A' <= c <= 'Z' then (c as int + 32) as char else c
  }

  function Lower(s: string): (r: string)
    ensures |r| == |s|
    ensures forall i :: 0 <= i < |s| ==> r[i] == LowerChar(s[i])
  {
    seq(|s|, i requires 0 <= i < |s| => LowerChar(s[i]))
  }

  /** `s.rfind(c)`: the last index holding `c`, or -1 when there is none. */
  function RFind(s: string, c: char): (i: int)
    ensures -1 <= i < |s|
    ensures i >= 0 ==> s[i] == c
    ensures forall j :: i < j < |s| ==> s[j] != c
  {
    if |s| == 0 then -1
    else if s[|s| - 1] == c then |s| - 1
    else RFind(s[..|s| - 1], c)
  }

  /** `PurePath.suffix` of a final path component: from its last dot on, unless that dot leads or ends the name. */
  function Suffix(name: string): (x: string)
    ensures x == [] || (2 <= |x| < |name| && x == name[|name| - |x|..] && x[0] == '.')
    ensures x != [] ==> forall j :: 1 <= j < |x| ==> x[j] != '.'
    ensures forall i :: 0 < i < |name| - 1 && name[i] == '.' && (forall j :: i < j < |name| ==> name[j] != '.') ==>
              x == name[i..]
  {
    var i := RFind(name, '.');
    if 0 < i < |name| - 1 then name[i..] else ""
  }

  /** The extensions `_find_images` accepts, in lower case. */
  const Extensions: seq<string> := [".jpg", ".jpeg", ".png", ".bmp"]

  /** The test `file_path.suffix.lower() in extensions`. */
  predicate IsImageName(name: string) {
    Lower(Suffix(name)) in Extensions
  }

  /** `name` ends, case-insensitively, with the extension `e` and has at least one character before it. */
  predicate EndsWithExtension(name: string, e: string) {
    |name| > |e| && Lower(name[|name| - |e|..]) == e
  }

  lemma LowerIsDotOnlyForDot(c: char)
    ensures LowerChar(c) == '.' <==> c == '.'
  {
  }

  /** A suffix that lower-cases to an extension is that extension's case-variant at the end of the name. */
  lemma ImageNameEnds(name: string)
    requires IsImageName(name)
    ensures EndsWithExtension(name, Lower(Suffix(name)))
  {
    var x := Suffix(name);
    assert x != [] by { assert Lower([]) == []; }
  }

  /** A name ending in an extension has its last dot exactly where that extension starts. */
  lemma EndingIsSuffix(name: string, e: string)
    requires e in Extensions && EndsWithExtension(name, e)
    ensures Suffix(name) == name[|name| - |e|..]
  {
    var k := |name| - |e|;
    var tail := name[k..];
    assert e[0] == '.' && forall j :: 1 <= j < |e| ==> e[j] != '.';
    assert LowerChar(tail[0]) == '.';
    LowerIsDotOnlyForDot(tail[0]);
    forall j | k < j < |name|
      ensures name[j] != '.'
    {
      assert LowerChar(tail[j - k]) == e[j - k];
      LowerIsDotOnlyForDot(name[j]);
    }
    assert RFind(name, '.') == k;
  }

  /**
   * An independent reading of the extension test: a name is an image name exactly when it
   * ends, ignoring ASCII case, with one of the four extensions and has something before it.
   */
  lemma ImageNameByEnding(name: string)
    ensures IsImageName(name) <==> exists e :: e in Extensions && EndsWithExtension(name, e)
  {
    if IsImageName(name) {
      ImageNameEnds(name);
    }
    if e :| e in Extensions && EndsWithExtension(name, e) {
      EndingIsSuffix(name, e);
    }
  }
}
