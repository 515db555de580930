/** Path and URL strings of the dog-image backup: how a remote folder, a remote
    file path, a manifest file name and an image-API request URL are derived
    from the breed, the sub-breed and the image URL. Everything here is a pure
    function of its inputs. */
module DogPaths {

  datatype Option<+T> = None | Some(value: T)

  /** Python truthiness of an optional string: `None` and `""` are both false. */
  predicate Truthy(s: Option<string>) {
    s.Some? && s.value != ""
  }

  /** Base URL of the dog image API. */
  const ApiBase: string := "https://dog.ceo/api"

  /** Root folder of the backup on the remote disk. */
  const DogsRoot: string := "/dogs"

  /** Lower case of one character: the ASCII capitals 'A'..'Z' become
      'a'..'z', every other character stays as it is. */
  function LowerChar(c: char): char {
    if 'A' <= c <= 'Z' then (c as int + 32) as char else c
  }

  /** Python's `s.lower()`, on the ASCII letters. */
  function Lower(s: string): string {
    seq(|s|, i requires 0 <= i < |s| => LowerChar(s[i]))
  }

  /** The ASCII capitals and small letters, in alphabetical order. */
  const Capitals: string := "ABCDEFGHIJKLMNOPQRSTUVWXYZ"
  const Smalls: string := "abcdefghijklmnopqrstuvwxyz"

  /** The k-th capital and the k-th small letter sit k code points after 'A'
      and 'a'. */
  lemma AlphabetsAligned()
    ensures |Capitals| == |Smalls| == 26
    ensures forall k :: 0 <= k < 26 ==> Capitals[k] as int == 'A' as int + k && Smalls[k] as int == 'a' as int + k
  {
  }

  /** Lowering keeps the length, turns the k-th capital of the alphabet into
      the k-th small letter, changes nothing else, leaves no ASCII capital
      behind, and is idempotent. */
  lemma LowerSpec(s: string)
    ensures var r := Lower(s);
      |r| == |s| &&
      (forall i, k :: 0 <= i < |s| && 0 <= k < |Capitals| && s[i] == Capitals[k] ==> r[i] == Smalls[k]) &&
      (forall i :: 0 <= i < |r| && !('A' <= s[i] <= 'Z') ==> r[i] == s[i]) &&
      (forall i :: 0 <= i < |r| ==> !('A' <= r[i] <= 'Z')) &&
      Lower(r) == r
  {
    AlphabetsAligned();
  }

  /** Inverse of `Split`: the pieces glued together with `sep` between them. */
  function Join(pieces: seq<string>, sep: char): string
    requires |pieces| >= 1
    decreases |pieces|
  {
    if |pieces| == 1 then pieces[0]
    else Join(pieces[..|pieces| - 1], sep) + [sep] + pieces[|pieces| - 1]
  }

  /** Python's `s.split(sep)` for a one-character separator; there is always
      at least one piece. */
  function Split(s: string, sep: char): (pieces: seq<string>)
    ensures |pieces| >= 1
    decreases |s|
  {
    if s == [] then [[]]
    else
      var p := Split(s[..|s| - 1], sep);
      var c := s[|s| - 1];
      if c == sep then p + [[]]
      else p[..|p| - 1] + [p[|p| - 1] + [c]]
  }

  /** Growing the last piece of a join grows the join at its end. */
  lemma JoinGrowLast(pieces: seq<string>, x: string, sep: char)
    requires |pieces| >= 1
    ensures Join(pieces[..|pieces| - 1] + [pieces[|pieces| - 1] + x], sep) == Join(pieces, sep) + x
  {
  }

  /** No piece of a split holds the separator. */
  lemma {:induction false} SplitNoSep(s: string, sep: char)
    ensures forall i :: 0 <= i < |Split(s, sep)| ==> sep !in Split(s, sep)[i]
    decreases |s|
  {
    if s != [] {
      var init := s[..|s| - 1];
      SplitNoSep(init, sep);
      var p := Split(init, sep);
      var c := s[|s| - 1];
      if c != sep {
        assert sep !in p[|p| - 1];
      }
    }
  }

  /** Joining the pieces of a split gives the string back. */
  lemma {:induction false} SplitJoin(s: string, sep: char)
    ensures Join(Split(s, sep), sep) == s
    decreases |s|
  {
    if s != [] {
      var init := s[..|s| - 1];
      SplitJoin(init, sep);
      var p := Split(init, sep);
      var c := s[|s| - 1];
      assert s == init + [c];
      if c == sep {
        var r := p + [[]];
        assert r[..|r| - 1] == p;
      } else {
        JoinGrowLast(p, [c], sep);
      }
    }
  }

  /** `t` is the part of `s` after its last '/', or the whole of `s` when it has none. */
  predicate IsLastSegment(s: string, t: string) {
    '/' !in t && |t| <= |s| && s[|s| - |t|..] == t &&
    (|t| == |s| || s[|s| - |t| - 1] == '/')
  }

  /** The last piece of a join is a suffix of it, preceded by the separator
      whenever there is more than one piece. */
  lemma {:induction false} JoinLast(pieces: seq<string>, sep: char)
    requires |pieces| >= 1
    ensures var j, t := Join(pieces, sep), pieces[|pieces| - 1];
      |t| <= |j| && j[|j| - |t|..] == t && (|pieces| > 1 ==> |t| < |j| && j[|j| - |t| - 1] == sep)
  {
  }

  /** `url.split("/")[-1]`. */
  function LastSegment(url: string): string
  {
    var p := Split(url, '/');
    p[|p| - 1]
  }

  /** The last segment of a URL is its part after the last '/', or all of it
      when it has none. */
  lemma LastSegmentSpec(url: string)
    ensures IsLastSegment(url, LastSegment(url))
  {
    var p := Split(url, '/');
    SplitJoin(url, '/');
    SplitNoSep(url, '/');
    JoinLast(p, '/');
  }

  /** The last segment is determined uniquely by `IsLastSegment`. */
  lemma LastSegmentUnique(s: string, t1: string, t2: string)
    requires IsLastSegment(s, t1) && IsLastSegment(s, t2)
    ensures t1 == t2
  {
  }

  /** The manifest file name `namePart + "_" + image_url.split("/")[-1]`. */
  function FileName(namePart: string, imageUrl: string): string
  {
    namePart + "_" + LastSegment(imageUrl)
  }

  /** A file name is the name part, an underscore, then the part of the image
      URL after its last '/' (the whole URL when it has none). */
  lemma FileNameShape(namePart: string, imageUrl: string)
    ensures var name := FileName(namePart, imageUrl);
      |name| > |namePart| && name[..|namePart|] == namePart && name[|namePart|] == '_' &&
      IsLastSegment(imageUrl, name[|namePart| + 1..])
  {
    var name := FileName(namePart, imageUrl);
    LastSegmentSpec(imageUrl);
    assert name[|namePart| + 1..] == LastSegment(imageUrl);
  }

  /** The remote path of a file in a folder, `folder + "/" + name`. */
  function TargetPath(folder: string, name: string): (path: string)
  {
    folder + "/" + name
  }

  /** A file name without '/' is exactly the last segment of its target path. */
  lemma TargetPathLastSegment(folder: string, name: string)
    requires '/' !in name
    ensures LastSegment(TargetPath(folder, name)) == name
  {
    var path := TargetPath(folder, name);
    LastSegmentSpec(path);
    assert IsLastSegment(path, name);
    LastSegmentUnique(path, LastSegment(path), name);
  }

  /** The remote folder of a breed, `/dogs/<breed>`. */
  function BreedFolder(breed: string): string
  {
    DogsRoot + "/" + breed
  }

  /** The breed folder lies directly under `/dogs`: stripping `/dogs/` gives
      the breed back, so distinct breeds get distinct folders, and a breed
      without '/' is the folder's last segment. */
  lemma BreedFolderShape(breed: string)
    ensures var path := BreedFolder(breed);
      |path| == |DogsRoot| + 1 + |breed| &&
      path[..|DogsRoot| + 1] == DogsRoot + "/" && path[|DogsRoot| + 1..] == breed &&
      ('/' !in breed ==> LastSegment(path) == breed)
  {
    if '/' !in breed {
      TargetPathLastSegment(DogsRoot, breed);
    }
  }

  /** Distinct breeds get distinct folders. */
  lemma BreedFolderInjective(a: string, b: string)
    ensures BreedFolder(a) == BreedFolder(b) <==> a == b
  {
    if BreedFolder(a) == BreedFolder(b) {
      BreedFolderShape(a);
      BreedFolderShape(b);
    }
  }

  /** The part of a file name that names the dog: the sub-breed when one is
      given, the breed itself otherwise. */
  function NamePart(breed: string, sub: Option<string>): string
  {
    if Truthy(sub) then sub.value else breed
  }

  /** Request URL for a random image of a breed, with the sub-breed segment
      only when a (non-empty) sub-breed is given. */
  function ImageRequestUrl(breed: string, sub: Option<string>): (url: string)
  {
    if Truthy(sub) then ApiBase + "/breed/" + breed + "/" + sub.value + "/images/random"
    else ApiBase + "/breed/" + breed + "/images/random"
  }

  /** The name part of a file names the dog its image was requested for: the
      request URL is the breed's URL, then (for a sub-breed) the name part,
      then `/images/random`; without a sub-breed, the name part is the breed. */
  lemma NamePartNamesRequest(breed: string, sub: Option<string>)
    ensures var u, prefix, suffix := ImageRequestUrl(breed, sub), ApiBase + "/breed/" + breed, "/images/random";
      var part := NamePart(breed, sub);
      |prefix| + |suffix| <= |u| && u[..|prefix|] == prefix && u[|u| - |suffix|..] == suffix &&
      (Truthy(sub) ==> u[|prefix|..|u| - |suffix|] == "/" + part) &&
      (!Truthy(sub) ==> |u| == |prefix| + |suffix| && part == breed)
  {
    var u, prefix, suffix := ImageRequestUrl(breed, sub), ApiBase + "/breed/" + breed, "/images/random";
    if Truthy(sub) {
      assert u == prefix + ("/" + sub.value) + suffix;
    } else {
      assert u == prefix + suffix;
    }
  }

  /** Two image requests for a breed coincide exactly when both name no
      sub-breed, or both name the same one; an empty sub-breed counts as none. */
  lemma ImageRequestUrlInjective(breed: string, x: Option<string>, y: Option<string>)
    ensures ImageRequestUrl(breed, x) == ImageRequestUrl(breed, y) <==>
            (Truthy(x) == Truthy(y) && (Truthy(x) ==> x.value == y.value))
  {
    var prefix := ApiBase + "/breed/" + breed;
    var suffix := "/images/random";
    if Truthy(x) && Truthy(y) && ImageRequestUrl(breed, x) == ImageRequestUrl(breed, y) {
      var u := ImageRequestUrl(breed, x);
      assert u == prefix + ("/" + x.value) + suffix;
      assert u == prefix + ("/" + y.value) + suffix;
      assert |x.value| == |y.value|;
      assert x.value == u[|prefix| + 1..|u| - |suffix|];
      assert y.value == u[|prefix| + 1..|u| - |suffix|];
    }
    if Truthy(x) != Truthy(y) {
      assert |ImageRequestUrl(breed, x)| != |ImageRequestUrl(breed, y)|;
    }
  }
}
