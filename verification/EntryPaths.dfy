/** The paths of archive entries: which names are refused, and where an accepted one leads. */
module EntryPaths {
  datatype PathError = NoName | TooLong | Absolute | NoUsablePath | Escapes

  datatype Path = Path(text: string) | Refused(error: PathError)

  /*** Split and join at slashes. ***/

  function Split(s: string): (parts: seq<string>)
    ensures |parts| >= 1
    ensures forall i :: 0 <= i < |parts| ==> '/' !in parts[i]
  {
    if s == "" then [""]
    else
      var rest := Split(s[1..]);
      if s[0] == '/' then [""] + rest else [[s[0]] + rest[0]] + rest[1..]
  }

  function Join(parts: seq<string>): string {
    if parts == [] then ""
    else if |parts| == 1 then parts[0]
    else parts[0] + "/" + Join(parts[1..])
  }

  lemma {:induction false} SplitPlain(s: string)
    requires '/' !in s
    ensures Split(s) == [s]
  {
    if s != "" {
      SplitPlain(s[1..]);
      assert [s[0]] + s[1..] == s;
    }
  }

  lemma {:induction false} SplitAtSlash(s: string, rest: string)
    requires '/' !in s
    ensures Split(s + "/" + rest) == [s] + Split(rest)
  {
    var all := s + "/" + rest;
    if s == "" {
      assert all[1..] == rest;
    } else {
      SplitAtSlash(s[1..], rest);
      assert all[1..] == s[1..] + "/" + rest && all[0] == s[0];
      assert [s[0]] + s[1..] == s;
    }
  }

  /** Joining parts and splitting again gives the same parts. */
  lemma {:induction false} SplitJoin(parts: seq<string>)
    requires parts != [] && forall i :: 0 <= i < |parts| ==> '/' !in parts[i]
    ensures Split(Join(parts)) == parts
  {
    if |parts| == 1 {
      SplitPlain(parts[0]);
    } else {
      SplitJoin(parts[1..]);
      SplitAtSlash(parts[0], Join(parts[1..]));
    }
  }

  /*** Names. ***/

  function Slashed(name: string): (s: string)
    ensures |s| == |name|
  {
    if name == "" then "" else [if name[0] == '\\' then '/' else name[0]] + Slashed(name[1..])
  }

  /** Every backslash becomes a slash, and nothing else changes. */
  lemma {:induction false} SlashedAt(name: string, i: nat)
    requires i < |name|
    ensures Slashed(name)[i] == if name[i] == '\\' then '/' else name[i]
  {
    if i > 0 {
      SlashedAt(name[1..], i - 1);
    }
  }

  predicate IsSpace(c: char) {
    || '\U{9}' <= c <= '\U{D}' || '\U{1C}' <= c <= '\U{20}' || c == '\U{85}' || c == '\U{A0}' || c == '\U{1680}'
    || '\U{2000}' <= c <= '\U{200A}' || c == '\U{2028}' || c == '\U{2029}' || c == '\U{202F}'
    || c == '\U{205F}' || c == '\U{3000}'
  }

  predicate Blank(s: string) {
    forall i :: 0 <= i < |s| ==> IsSpace(s[i])
  }

  predicate Letter(c: char) {
    'A' <= c <= 'Z' || 'a' <= c <= 'z'
  }

  predicate DriveLike(s: string) {
    |s| >= 2 && Letter(s[0]) && s[1] == ':'
  }

  predicate Rooted(s: string) {
    s != "" && (s[0] == '/' || s[0] == '\\')
  }

  /** The parts that lead somewhere. */
  function Usable(parts: seq<string>): (r: seq<string>)
    ensures forall i :: 0 <= i < |r| ==> r[i] in parts && r[i] != "" && r[i] != "."
  {
    if parts == [] then []
    else if parts[0] == "" || parts[0] == "." then Usable(parts[1..])
    else [parts[0]] + Usable(parts[1..])
  }

  /** `_normalise_entry_path`. */
  function Normalised(name: string, maxLength: int): Path {
    if Blank(name) then Refused(NoName)
    else if |name| > maxLength then Refused(TooLong)
    else if Rooted(name) || DriveLike(name) then Refused(Absolute)
    else
      var parts := Usable(Split(Slashed(name)));
      if parts == [] then Refused(NoUsablePath)
      else if ".." in parts then Refused(Escapes)
      else Path(Join(parts))
  }

  lemma {:induction false} UsableIff(parts: seq<string>, part: string)
    ensures part in Usable(parts) <==> part in parts && part != "" && part != "."
  {
    if parts != [] {
      UsableIff(parts[1..], part);
      assert parts == [parts[0]] + parts[1..];
    }
  }

  ghost predicate LeadsSomewhere(parts: seq<string>) {
    exists part :: part in parts && part != "" && part != "."
  }

  lemma {:induction false} LeadsSomewhereIff(parts: seq<string>)
    ensures LeadsSomewhere(parts) <==> Usable(parts) != []
  {
    if parts != [] {
      LeadsSomewhereIff(parts[1..]);
      if LeadsSomewhere(parts[1..]) {
        var part :| part in parts[1..] && part != "" && part != ".";
        assert part in parts;
      }
      if parts[0] != "" && parts[0] != "." {
        assert parts[0] in parts;
      } else if LeadsSomewhere(parts) {
        var part :| part in parts && part != "" && part != ".";
        assert part in parts[1..];
      }
    }
  }

  /** A name is accepted if and only if it is not blank, not too long, does not start with a slash, a backslash or a
      drive letter, and has, between slashes of either kind, some part that leads somewhere and none that climbs. */
  lemma NormalisedIff(name: string, maxLength: int)
    ensures Normalised(name, maxLength).Path? <==>
            && !Blank(name) && |name| <= maxLength && name != "" && name[0] != '/' && name[0] != '\\'
            && !(|name| >= 2 && ('A' <= name[0] <= 'Z' || 'a' <= name[0] <= 'z') && name[1] == ':')
            && LeadsSomewhere(Split(Slashed(name))) && ".." !in Split(Slashed(name))
  {
    UsableIff(Split(Slashed(name)), "..");
    LeadsSomewhereIff(Split(Slashed(name)));
  }

  /** An absolute name is refused as such, and a name with a part that climbs is refused, whatever else it has. */
  lemma RootedIsRefused(name: string, maxLength: int)
    ensures !Blank(name) && |name| <= maxLength && (name[0] == '/' || name[0] == '\\') ==>
              Normalised(name, maxLength) == Refused(Absolute)
    ensures ".." in Split(Slashed(name)) ==> Normalised(name, maxLength).Refused?
  {
    UsableIff(Split(Slashed(name)), "..");
  }

  /*** Where a path leads. ***/

  /** Following a path from a directory, one part at a time; `..` climbs, and stays at the top. */
  function Walk(at: seq<string>, parts: seq<string>): seq<string>
    decreases |parts|
  {
    if parts == [] then at
    else if parts[0] == "" || parts[0] == "." then Walk(at, parts[1..])
    else if parts[0] == ".." then Walk(if at == [] then at else at[..|at| - 1], parts[1..])
    else Walk(at + [parts[0]], parts[1..])
  }

  /** Why "..", alone among the parts, is refused: it undoes the part before it, and from the root it leads out. */
  lemma ClimbsOut(root: seq<string>, part: string, rest: seq<string>)
    requires PlainPart(part)
    ensures Walk(root, [part, ".."] + rest) == Walk(root, rest)
    ensures root != [] ==> Walk(root, [".."]) == root[..|root| - 1]
  {
    var parts := [part, ".."] + rest;
    assert parts[1..] == [".."] + rest && parts[1..][1..] == rest;
    assert (root + [part])[..|root|] == root;
    assert [".."][1..] == [];
  }

  predicate PlainPart(part: string) {
    part != "" && part != "." && part != ".." && '/' !in part && '\\' !in part
  }

  /** A relative path that only goes down. */
  predicate Plain(parts: seq<string>) {
    parts != [] && forall i :: 0 <= i < |parts| ==> PlainPart(parts[i])
  }

  lemma {:induction false} WalkUsable(at: seq<string>, parts: seq<string>)
    requires ".." !in Usable(parts)
    ensures Walk(at, parts) == at + Usable(parts)
    decreases |parts|
  {
    if parts == [] {
    } else if parts[0] == "" || parts[0] == "." {
      WalkUsable(at, parts[1..]);
    } else {
      assert Usable(parts)[1..] == Usable(parts[1..]);
      WalkUsable(at + [parts[0]], parts[1..]);
      assert at + [parts[0]] + Usable(parts[1..]) == at + ([parts[0]] + Usable(parts[1..]));
    }
  }

  lemma {:induction false} SlashedHasNoBackslash(name: string)
    ensures '\\' !in Slashed(name)
  {
    if name != "" {
      SlashedHasNoBackslash(name[1..]);
    }
  }

  lemma {:induction false} SplitKeepsOut(s: string, c: char)
    requires c !in s
    ensures forall i :: 0 <= i < |Split(s)| ==> c !in Split(s)[i]
  {
    if s != "" {
      SplitKeepsOut(s[1..], c);
      var rest := Split(s[1..]);
      assert forall i :: 1 <= i < |Split(s)| ==> Split(s)[i] == rest[if s[0] == '/' then i - 1 else i];
    }
  }

  lemma {:induction false} UsableOfPlain(parts: seq<string>)
    requires forall i :: 0 <= i < |parts| ==> parts[i] != "" && parts[i] != "."
    ensures Usable(parts) == parts
  {
    if parts != [] {
      UsableOfPlain(parts[1..]);
      assert [parts[0]] + parts[1..] == parts;
    }
  }

  /** Containment: an accepted path splits again into the name's own usable parts, none of them empty, "." or
      ".."; and from any directory it leads to where the name itself leads, which is below. */
  lemma NormalisedGoesDown(name: string, maxLength: int, root: seq<string>)
    requires Normalised(name, maxLength).Path?
    ensures var parts := Split(Normalised(name, maxLength).text);
            && Plain(parts)
            && parts == Usable(Split(Slashed(name)))
            && Walk(root, parts) == Walk(root, Split(Slashed(name))) == root + parts
  {
    var named := Split(Slashed(name));
    var parts := Usable(named);
    SlashedHasNoBackslash(name);
    SplitKeepsOut(Slashed(name), '\\');
    SplitJoin(parts);
    WalkUsable(root, named);
    UsableOfPlain(parts);
    WalkUsable(root, parts);
  }

  lemma JoinHead(c: char, parts: seq<string>)
    requires parts != []
    ensures Join([[c] + parts[0]] + parts[1..]) == [c] + Join(parts)
  {
    var longer := [[c] + parts[0]] + parts[1..];
    assert longer[1..] == parts[1..];
    if |parts| > 1 {
      assert [c] + parts[0] + "/" + Join(parts[1..]) == [c] + (parts[0] + "/" + Join(parts[1..]));
    }
  }

  lemma {:induction false} JoinSplit(s: string)
    ensures Join(Split(s)) == s
  {
    if s != "" {
      JoinSplit(s[1..]);
      var rest := Split(s[1..]);
      if s[0] == '/' {
        assert ([""] + rest)[1..] == rest;
      } else {
        JoinHead(s[0], rest);
      }
      assert [s[0]] + s[1..] == s;
    }
  }

  /** What Join gives, and the slash it would put before. */
  function Weight(parts: seq<string>): nat {
    if parts == [] then 0 else |parts[0]| + 1 + Weight(parts[1..])
  }

  lemma {:induction false} JoinWeighs(parts: seq<string>)
    requires parts != []
    ensures |Join(parts)| + 1 == Weight(parts)
  {
    if |parts| > 1 {
      JoinWeighs(parts[1..]);
    } else {
      assert parts[1..] == [];
    }
  }

  lemma {:induction false} UsableWeighsLess(parts: seq<string>)
    ensures Weight(Usable(parts)) <= Weight(parts)
  {
    if parts != [] {
      UsableWeighsLess(parts[1..]);
      if parts[0] != "" && parts[0] != "." {
        assert Usable(parts)[1..] == Usable(parts[1..]);
      }
    }
  }

  /** Normalising never makes a name longer. */
  lemma NormalisedIsNoLonger(name: string, maxLength: int)
    requires Normalised(name, maxLength).Path?
    ensures |Normalised(name, maxLength).text| <= |name| <= maxLength
  {
    var named := Split(Slashed(name));
    JoinSplit(Slashed(name));
    JoinWeighs(named);
    UsableWeighsLess(named);
    JoinWeighs(Usable(named));
  }

  lemma {:induction false} SlashedKeeps(s: string)
    requires '\\' !in s
    ensures Slashed(s) == s
  {
    if s != "" {
      SlashedKeeps(s[1..]);
      assert [s[0]] + s[1..] == s;
    }
  }

  lemma {:induction false} JoinKeepsOut(parts: seq<string>, c: char)
    requires c != '/' && forall i :: 0 <= i < |parts| ==> c !in parts[i]
    ensures c !in Join(parts)
  {
    if |parts| > 1 {
      JoinKeepsOut(parts[1..], c);
    }
  }

  lemma JoinStarts(parts: seq<string>)
    requires Plain(parts)
    ensures Join(parts) != "" && Join(parts)[0] == parts[0][0]
  {
  }

  /** An ordinary relative name is accepted as it is. */
  lemma PlainIsAccepted(parts: seq<string>, maxLength: int)
    requires Plain(parts) && |Join(parts)| <= maxLength && !Blank(Join(parts)) && !DriveLike(Join(parts))
    ensures Normalised(Join(parts), maxLength) == Path(Join(parts))
  {
    JoinKeepsOut(parts, '\\');
    SlashedKeeps(Join(parts));
    SplitJoin(parts);
    UsableOfPlain(parts);
    JoinStarts(parts);
  }

  /** Normalising twice is normalising once, except that dropping leading "./" can uncover a blank name or a
      drive letter, which the second pass refuses: exactly then. */
  lemma NormalisedTwice(name: string, maxLength: int)
    requires Normalised(name, maxLength).Path?
    ensures var path := Normalised(name, maxLength).text;
            Normalised(path, maxLength) == Path(path) <==> !Blank(path) && !DriveLike(path)
  {
    var path := Normalised(name, maxLength).text;
    var parts := Split(path);
    NormalisedGoesDown(name, maxLength, []);
    NormalisedIsNoLonger(name, maxLength);
    JoinKeepsOut(parts, '\\');
    JoinSplit(path);
    SlashedKeeps(path);
    UsableOfPlain(parts);
    JoinStarts(parts);
  }

  /** So "./C:x" is accepted, as "C:x", and so is every drive-like name behind "./". */
  lemma DriveUncovered(rest: string, maxLength: int)
    requires DriveLike(rest) && '/' !in rest && '\\' !in rest && |rest| + 2 <= maxLength
    ensures Normalised("./" + rest, maxLength) == Path(rest)
    ensures Normalised(rest, maxLength) == Refused(Absolute)
  {
    assert !IsSpace(("./" + rest)[0]) && !IsSpace(rest[0]);
    UncoveredParts(rest);
  }

  lemma UncoveredParts(rest: string)
    requires '/' !in rest && '\\' !in rest && rest != "" && rest != "."
    ensures Usable(Split(Slashed("./" + rest))) == [rest]
  {
    SlashedKeeps("./" + rest);
    SplitAtSlash(".", rest);
    SplitPlain(rest);
    assert "." + "/" + rest == "./" + rest;
    var parts := [".", rest];
    assert parts[1..] == [rest];
    UsableOfPlain([rest]);
    assert Usable(parts) == Usable(parts[1..]);
  }

  /*** The text of a resolved path. ***/

  function Text(parts: seq<string>): (s: string)
    ensures s != ""
  {
    if parts == [] then "/" else if |parts| == 1 then "/" + parts[0]
      else Text(parts[..|parts| - 1]) + "/" + parts[|parts| - 1]
  }

  /** The text of a directory is a prefix of the text of whatever lies below it, so the second check of the
      extraction, made on texts, never refuses a normalised path. */
  lemma {:induction false} TextBelow(root: seq<string>, below: seq<string>)
    ensures Text(root) <= Text(root + below)
  {
    if below == [] {
      assert root + below == root;
    } else {
      var last := |below| - 1;
      TextBelow(root, below[..last]);
      assert (root + below)[..|root + below| - 1] == root + below[..last];
      assert (root + below)[|root + below| - 1] == below[last];
    }
  }
}
