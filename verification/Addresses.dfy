/** Queue addresses: slash-separated paths of plain segments, and the names built from
    them. */
module Addresses {

  datatype AddressError =
    | Empty
    | EmptySegment
    | InvalidChar(ch: char)
    | InvalidSegment(segment: string)

  datatype Result<+T> = Ok(value: T) | Err(error: AddressError)

  const SHM_ROOT: string := "/dev/shm/nnxt"
  const SHM_PREFIX: string := "/nnxt"

  datatype Address = Address(path: string, shmName: string, filePath: string)

  predicate IsPlain(ch: char) {
    'a' <= ch <= 'z' || 'A' <= ch <= 'Z' || '0' <= ch <= '9' || ch == '-' || ch == '_'
  }

  /** Reading one more character: a slash opens a segment, anything else goes to the last. */
  function Grown(segments: seq<string>, ch: char): seq<string>
    requires segments != []
  {
    if ch == '/' then segments + [""]
    else segments[..|segments| - 1] + [segments[|segments| - 1] + [ch]]
  }

  /** str::split('/'): one more segment than there are slashes. */
  function Split(path: string): (segments: seq<string>)
    ensures segments != []
  {
    if path == "" then [""] else Grown(Split(path[..|path| - 1]), path[|path| - 1])
  }

  /** [str]::join("/") */
  function Join(segments: seq<string>): string {
    if segments == [] then ""
    else if |segments| == 1 then segments[0]
    else Join(segments[..|segments| - 1]) + "/" + segments[|segments| - 1]
  }

  ghost predicate ValidSegment(segment: string) {
    segment != "" && forall k :: 0 <= k < |segment| ==> IsPlain(segment[k])
  }

  ghost predicate ValidSegments(segments: seq<string>) {
    segments != [] && forall k :: 0 <= k < |segments| ==> ValidSegment(segments[k])
  }

  predicate SlashFree(s: string) {
    '/' !in s
  }

  // ---------------------------------------------------------------------------
  // Splitting and joining are inverse

  lemma JoinOfGrown(segments: seq<string>, ch: char)
    requires segments != []
    ensures Join(Grown(segments, ch)) == Join(segments) + [ch]
  {
    var init, last := segments[..|segments| - 1], segments[|segments| - 1];
    var grown := Grown(segments, ch);
    if ch == '/' {
      assert grown[..|grown| - 1] == segments;
    } else {
      assert grown[..|segments| - 1] == init;
      if |segments| > 1 {
        assert Join(init) + "/" + (last + [ch]) == (Join(init) + "/" + last) + [ch];
      }
    }
  }

  lemma {:induction false} JoinOfSplit(path: string)
    ensures Join(Split(path)) == path
  {
    if path != "" {
      var init, last := path[..|path| - 1], path[|path| - 1];
      JoinOfSplit(init);
      JoinOfGrown(Split(init), last);
      assert path == init + [last];
    }
  }

  lemma SplitOfAppended(path: string, ch: char)
    ensures Split(path + [ch]) == Grown(Split(path), ch)
  {
    assert (path + [ch])[..|path|] == path;
  }

  lemma {:induction false} SplitOfSlashFree(s: string)
    requires SlashFree(s)
    ensures Split(s) == [s]
  {
    if s != "" {
      var init, last := s[..|s| - 1], s[|s| - 1];
      assert s == init + [last];
      assert last != '/' && SlashFree(init);
      SplitOfSlashFree(init);
      SplitOfAppended(init, last);
      assert Grown([init], last) == [init + [last]];
    }
  }

  lemma GrowRight(left: seq<string>, right: seq<string>, ch: char)
    requires right != []
    ensures Grown(left + right, ch) == left + Grown(right, ch)
  {
  }

  /** A slash between two paths separates their segments. */
  lemma {:induction false} SplitAtSlash(a: string, b: string)
    ensures Split(a + "/" + b) == Split(a) + Split(b)
  {
    if b == "" {
      assert a + "/" + b == a + ['/'];
      SplitOfAppended(a, '/');
    } else {
      var init, last := b[..|b| - 1], b[|b| - 1];
      assert a + "/" + b == (a + "/" + init) + [last];
      SplitAtSlash(a, init);
      SplitOfAppended(a + "/" + init, last);
      GrowRight(Split(a), Split(init), last);
    }
  }

  lemma {:induction false} SplitOfJoin(segments: seq<string>)
    requires segments != []
    requires forall k :: 0 <= k < |segments| ==> SlashFree(segments[k])
    ensures Split(Join(segments)) == segments
  {
    var init, last := segments[..|segments| - 1], segments[|segments| - 1];
    SplitOfSlashFree(last);
    if |segments| == 1 {
      assert segments == [last];
    } else {
      SplitOfJoin(init);
      SplitAtSlash(Join(init), last);
      assert segments == init + [last];
    }
  }

  // ---------------------------------------------------------------------------
  // Address::new

  function FirstBadChar(segment: string): (k: nat)
    ensures k <= |segment|
    ensures k < |segment| ==> !IsPlain(segment[k])
    ensures forall j :: 0 <= j < k ==> IsPlain(segment[j])
  {
    if segment == "" || !IsPlain(segment[0]) then 0 else 1 + FirstBadChar(segment[1..])
  }

  /** What is wrong with one segment. */
  function SegmentError(segment: string): (error: Result<()>)
    ensures error.Ok? <==> ValidSegment(segment)
  {
    if segment == "" then Err(EmptySegment)
    else if segment == "." || segment == ".." then
      assert !IsPlain(segment[0]);
      Err(InvalidSegment(segment))
    else if FirstBadChar(segment) < |segment| then Err(InvalidChar(segment[FirstBadChar(segment)]))
    else Ok(())
  }

  /** The error of the first segment that has one. */
  function FirstError(segments: seq<string>): (error: Result<()>)
    ensures error.Ok? <==> forall k :: 0 <= k < |segments| ==> ValidSegment(segments[k])
  {
    if segments == [] then Ok(())
    else if SegmentError(segments[0]).Err? then SegmentError(segments[0])
    else FirstError(segments[1..])
  }

  function AddressFor(normalized: string): Address {
    Address(normalized, SHM_PREFIX + "/" + normalized, SHM_ROOT + "/" + normalized)
  }

  function Parsed(path: string): Result<Address> {
    if path == "" then Err(Empty)
    else if path[0] == '/' then Err(InvalidChar('/'))
    else
      match FirstError(Split(path))
      case Err(error) => Err(error)
      case Ok(_) => Ok(AddressFor(path))
  }

  lemma {:induction false} FirstErrorFrom(segments: seq<string>, k: nat)
    requires k <= |segments|
    requires forall j :: 0 <= j < k ==> ValidSegment(segments[j])
    ensures FirstError(segments) == FirstError(segments[k..])
    decreases k
  {
    if k > 0 {
      FirstErrorFrom(segments[1..], k - 1);
      assert segments[1..][k - 1..] == segments[k..];
    } else {
      assert segments[0..] == segments;
    }
  }

  /** Address::new: validates segment by segment, collecting them to join them again. */
  method NewAddress(path: string) returns (result: Result<Address>)
    ensures result == Parsed(path)
  {
    if path == "" {
      return Err(Empty);
    }
    if path[0] == '/' {
      return Err(InvalidChar('/'));
    }
    var parts := Split(path);
    var segments: seq<string> := [];
    for k := 0 to |parts|
      invariant segments == parts[..k]
      invariant forall j :: 0 <= j < k ==> ValidSegment(parts[j])
    {
      var segment := parts[k];
      FirstErrorFrom(parts, k);
      if segment == "" {
        return Err(EmptySegment);
      }
      if segment == "." || segment == ".." {
        return Err(InvalidSegment(segment));
      }
      for c := 0 to |segment|
        invariant forall j :: 0 <= j < c ==> IsPlain(segment[j])
      {
        if !IsPlain(segment[c]) {
          assert FirstBadChar(segment) == c;
          return Err(InvalidChar(segment[c]));
        }
      }
      segments := segments + [segment];
    }
    assert parts[..|parts|] == parts;
    JoinOfSplit(path);
    var normalized := Join(segments);
    return Ok(AddressFor(normalized));
  }

  /** Exactly the nonempty slash-separated sequences of plain nonempty segments are
      accepted, and an accepted path is kept as it is. */
  lemma AcceptedIffJoinOfValid(path: string)
    ensures Parsed(path).Ok? <==> exists segments :: ValidSegments(segments) && path == Join(segments)
    ensures Parsed(path).Ok? ==> Parsed(path).value.path == path && ValidSegments(Split(path))
  {
    JoinOfSplit(path);
    if Parsed(path).Ok? {
      assert ValidSegments(Split(path));
    }
    if segments :| ValidSegments(segments) && path == Join(segments) {
      forall k | 0 <= k < |segments| ensures SlashFree(segments[k]) {
        assert ValidSegment(segments[k]);
      }
      SplitOfJoin(segments);
      assert ValidSegment(segments[0]);
      if path != "" && path[0] == '/' {
        StartsWithSlash(path);
      }
    }
  }

  lemma {:induction false} StartsWithSlash(path: string)
    requires path != "" && path[0] == '/'
    ensures Split(path)[0] == ""
  {
    if |path| > 1 {
      StartsWithSlash(path[..|path| - 1]);
      StartsWithSlashHasTwo(path[..|path| - 1]);
    } else {
      assert path == "/" && path[..0] == "";
    }
  }

  lemma {:induction false} StartsWithSlashHasTwo(path: string)
    requires path != "" && path[0] == '/'
    ensures |Split(path)| >= 2
  {
    if |path| > 1 {
      StartsWithSlashHasTwo(path[..|path| - 1]);
    } else {
      assert path[..0] == "";
    }
  }

  /** Distinct accepted paths get distinct shared memory names and files. */
  lemma NamesAreInjective(a: string, b: string)
    requires Parsed(a).Ok? && Parsed(b).Ok?
    requires Parsed(a).value.shmName == Parsed(b).value.shmName || Parsed(a).value.filePath == Parsed(b).value.filePath
    ensures a == b
  {
    assert Parsed(a).value.shmName[|SHM_PREFIX| + 1..] == a;
    assert Parsed(b).value.shmName[|SHM_PREFIX| + 1..] == b;
    assert Parsed(a).value.filePath[|SHM_ROOT| + 1..] == a;
    assert Parsed(b).value.filePath[|SHM_ROOT| + 1..] == b;
  }

  lemma ValidOfConcat(a: seq<string>, b: seq<string>)
    requires a != [] && b != []
    ensures ValidSegments(a + b) <==> ValidSegments(a) && ValidSegments(b)
  {
    if ValidSegments(a + b) {
      assert forall k :: 0 <= k < |a| ==> (a + b)[k] == a[k];
      assert forall k :: 0 <= k < |b| ==> (a + b)[|a| + k] == b[k];
    }
  }

  lemma AcceptedIffSegmentsValid(path: string)
    ensures Parsed(path).Ok? <==> ValidSegments(Split(path))
  {
    AcceptedIffJoinOfValid(path);
    JoinOfSplit(path);
  }

  // ---------------------------------------------------------------------------
  // The same by characters

  /** ASCII digits, capitals, small letters, hyphen and underscore, by code. */
  predicate IsNameCode(code: int) {
    48 <= code <= 57 || 65 <= code <= 90 || 97 <= code <= 122 || code == 45 || code == 95
  }

  lemma PlainByCode(ch: char)
    ensures IsPlain(ch) <==> IsNameCode(ch as int)
  {
  }

  predicate DoubleSlashAt(path: string, k: int) {
    0 <= k < |path| - 1 && path[k] == '/' && path[k + 1] == '/'
  }

  /** Only name characters and single slashes, none of them in front. */
  ghost predicate CleanSoFar(path: string) {
    && (path != "" ==> path[0] != '/')
    && (forall k :: 0 <= k < |path| ==> path[k] == '/' || IsNameCode(path[k] as int))
    && forall k :: !DoubleSlashAt(path, k)
  }

  ghost predicate PlainOnly(segment: string) {
    forall j :: 0 <= j < |segment| ==> IsPlain(segment[j])
  }

  /** All segments are valid but perhaps the last, which may still be empty. */
  ghost predicate ValidSoFar(segments: seq<string>) {
    && segments != []
    && (forall k :: 0 <= k < |segments| - 1 ==> ValidSegment(segments[k]))
    && PlainOnly(segments[|segments| - 1])
  }

  lemma CleanGrows(path: string, ch: char)
    ensures CleanSoFar(path + [ch])
       <==> CleanSoFar(path) && (if ch == '/' then path != "" && path[|path| - 1] != '/' else IsNameCode(ch as int))
  {
    var all := path + [ch];
    assert forall k :: 0 <= k < |path| ==> all[k] == path[k];
    assert all[|path|] == ch;
    forall k
      ensures DoubleSlashAt(all, k) <==> DoubleSlashAt(path, k) || (0 <= k == |path| - 1 && path[k] == '/' && ch == '/')
    {
    }
    assert DoubleSlashAt(all, |path| - 1) <==> path != "" && path[|path| - 1] == '/' && ch == '/';
  }

  lemma ValidGrows(segments: seq<string>, ch: char)
    requires segments != []
    ensures var last := segments[|segments| - 1];
            ValidSoFar(Grown(segments, ch))
            <==> ValidSoFar(segments) && (if ch == '/' then last != "" else IsNameCode(ch as int))
  {
    var last, grown := segments[|segments| - 1], Grown(segments, ch);
    PlainByCode(ch);
    assert forall k :: 0 <= k < |segments| - 1 ==> grown[k] == segments[k];
    if ch == '/' {
      assert grown[|segments| - 1] == last && grown[|segments|] == "";
    } else {
      assert grown[|segments| - 1] == last + [ch];
      assert forall j :: 0 <= j < |last| ==> (last + [ch])[j] == last[j];
      assert (last + [ch])[|last|] == ch;
    }
  }

  lemma {:induction false} ValidIffClean(path: string)
    ensures ValidSoFar(Split(path)) <==> CleanSoFar(path)
    ensures Split(path)[|Split(path)| - 1] == "" <==> path == "" || path[|path| - 1] == '/'
  {
    if path != "" {
      var init, last := path[..|path| - 1], path[|path| - 1];
      assert path == init + [last];
      ValidIffClean(init);
      CleanGrows(init, last);
      ValidGrows(Split(init), last);
    }
  }

  /** A path is accepted exactly if it is made of name characters and single slashes and neither
      begins nor ends with a slash; it then names "/nnxt/" and the file "/dev/shm/nnxt/" with the
      path behind. */
  lemma AcceptedByCharacters(path: string)
    ensures Parsed(path).Ok? <==> path != "" && CleanSoFar(path) && path[|path| - 1] != '/'
    ensures Parsed(path).Ok? ==>
              Parsed(path).value == Address(path, "/nnxt" + "/" + path, "/dev/shm/nnxt" + "/" + path)
  {
    ValidIffClean(path);
    AcceptedIffSegmentsValid(path);
    var segments := Split(path);
    assert ValidSegments(segments) <==> ValidSoFar(segments) && segments[|segments| - 1] != "";
  }

  /** The error is about the first segment that is wrong, and in it about the first character. */
  ghost predicate Blames(error: AddressError, segment: string) {
    match error
    case Empty => false
    case EmptySegment => segment == ""
    case InvalidSegment(name) => name == segment && (segment == "." || segment == "..")
    case InvalidChar(ch) =>
      && segment != "." && segment != ".."
      && exists j :: 0 <= j < |segment| && segment[j] == ch && !IsNameCode(ch as int)
                  && forall i :: 0 <= i < j ==> IsNameCode(segment[i] as int)
  }

  lemma SegmentErrorBlames(segment: string)
    requires SegmentError(segment).Err?
    ensures Blames(SegmentError(segment).error, segment)
  {
    var j := FirstBadChar(segment);
    forall i | 0 <= i < |segment|
      ensures IsPlain(segment[i]) <==> IsNameCode(segment[i] as int)
    {
      PlainByCode(segment[i]);
    }
    if segment != "" && segment != "." && segment != ".." {
      assert segment[j] == SegmentError(segment).error.ch;
    }
  }

  lemma {:induction false} FirstErrorBlames(segments: seq<string>) returns (k: nat)
    requires FirstError(segments).Err?
    ensures k < |segments| && Blames(FirstError(segments).error, segments[k])
    ensures forall i :: 0 <= i < k ==> ValidSegment(segments[i])
  {
    if SegmentError(segments[0]).Err? {
      k := 0;
      SegmentErrorBlames(segments[0]);
    } else {
      var rest := FirstErrorBlames(segments[1..]);
      k := rest + 1;
    }
  }

  /** What is refused is refused for its first fault in reading order. */
  lemma RefusedForFirstFault(path: string)
    requires Parsed(path).Err?
    ensures var error := Parsed(path).error;
            if path == "" then error == Empty
            else if path[0] == '/' then error == InvalidChar('/')
            else exists k :: 0 <= k < |Split(path)| && Blames(error, Split(path)[k])
                          && forall i :: 0 <= i < k ==> ValidSegment(Split(path)[i])
  {
    if path != "" && path[0] != '/' {
      var k := FirstErrorBlames(Split(path));
    }
  }
}
