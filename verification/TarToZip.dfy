/** Turning a downloaded tar archive into a zip, bitsmanager/http_handler.go: leading directories are
    dropped, and if there are any, the first path segment of every later entry. */
module TarToZip {
  datatype TarEntry = TarEntry(name: string, isDir: bool, content: seq<bv8>)

  /** What the tar reader yields: an entry, or an error. */
  datatype TarItem = Header(entry: TarEntry) | Corrupt

  datatype ZipEntry = ZipEntry(name: string, deflated: bool, content: seq<bv8>)

  // ----- strings.Split and strings.Join on "/" -----

  function Split(s: string): (parts: seq<string>)
    ensures |parts| > 0
  {
    if s == "" then [""]
    else
      var rest := Split(s[1..]);
      if s[0] == '/' then [""] + rest else [[s[0]] + rest[0]] + rest[1..]
  }

  function Join(parts: seq<string>): string {
    if parts == [] then ""
    else if |parts| == 1 then parts[0]
    else parts[0] + "/" + Join(parts[1..])
  }

  /** The name without its first segment. */
  function Stripped(name: string): string { Join(Split(name)[1..]) }

  lemma {:induction false} JoinSplit(s: string)
    ensures Join(Split(s)) == s
  {
    if s != "" {
      JoinSplit(s[1..]);
      var rest := Split(s[1..]);
      if s[0] == '/' {
        assert ([""] + rest)[1..] == rest;
        assert s == "/" + s[1..];
      } else {
        var parts := [[s[0]] + rest[0]] + rest[1..];
        assert parts[1..] == rest[1..];
        assert Join(parts) == [s[0]] + Join(rest);
      }
    }
  }

  lemma {:induction false} SplitAtSlash(segment: string, rest: string)
    requires '/' !in segment
    ensures Split(segment + "/" + rest) == [segment] + Split(rest)
  {
    var name := segment + "/" + rest;
    if segment == "" {
      assert name[1..] == rest;
    } else {
      assert segment[0] in segment && name[0] == segment[0];
      assert name[1..] == segment[1..] + "/" + rest;
      SplitAtSlash(segment[1..], rest);
      assert ([segment[1..]] + Split(rest))[1..] == Split(rest);
      assert [segment[0]] + segment[1..] == segment;
    }
  }

  /** A name under a segment loses exactly that segment and the slash. */
  lemma StripsSegment(segment: string, rest: string)
    requires '/' !in segment
    ensures Stripped(segment + "/" + rest) == rest
  {
    SplitAtSlash(segment, rest);
    assert ([segment] + Split(rest))[1..] == Split(rest);
    JoinSplit(rest);
  }

  /** What comes after the first slash, and nothing if there is none. */
  function AfterSlash(name: string): string {
    if name == "" then "" else if name[0] == '/' then name[1..] else AfterSlash(name[1..])
  }

  /** Splitting, dropping the first part and joining keeps what comes after the first slash. */
  lemma {:induction false} StrippedIsAfterSlash(name: string)
    ensures Stripped(name) == AfterSlash(name)
  {
    if name != "" {
      var rest := Split(name[1..]);
      if name[0] == '/' {
        assert ([""] + rest)[1..] == rest;
        JoinSplit(name[1..]);
      } else {
        assert ([[name[0]] + rest[0]] + rest[1..])[1..] == rest[1..];
        StrippedIsAfterSlash(name[1..]);
      }
    }
  }

  /** A name without a slash is stripped to nothing. */
  lemma {:induction false} StripsAll(name: string)
    requires '/' !in name
    ensures Split(name) == [name] && Stripped(name) == ""
  {
    if name != "" {
      assert name[0] in name;
      StripsAll(name[1..]);
      assert [name[0]] + name[1..] == name;
    }
  }

  // ----- The archive -----

  /** The number of directories the archive starts with. */
  function LeadingDirs(items: seq<TarItem>): (n: nat)
    ensures n <= |items|
    ensures forall k :: 0 <= k < n ==> items[k].Header? && items[k].entry.isDir
    ensures n < |items| ==> !(items[n].Header? && items[n].entry.isDir)
  {
    if items != [] && items[0].Header? && items[0].entry.isDir then 1 + LeadingDirs(items[1..]) else 0
  }

  /** The number of items before the first error. */
  function Readable(items: seq<TarItem>): (n: nat)
    ensures n <= |items|
    ensures forall k :: 0 <= k < n ==> items[k].Header?
    ensures n < |items| ==> items[n].Corrupt?
  {
    if items != [] && items[0].Header? then 1 + Readable(items[1..]) else 0
  }

  function Zipped(e: TarEntry, hasRootFolder: bool): ZipEntry {
    ZipEntry(if hasRootFolder then Stripped(e.name) else e.name, !e.isDir, if e.isDir then [] else e.content)
  }

  /** The zip holds the readable entries after the leading directories, in order. */
  ghost predicate IsZipOf(zip: seq<ZipEntry>, items: seq<TarItem>) {
    var lead := LeadingDirs(items);
    && |zip| == Readable(items) - lead
    && forall k :: 0 <= k < |zip| ==> zip[k] == Zipped(items[lead + k].entry, lead > 0)
  }

  ghost predicate HeadersUpTo(items: seq<TarItem>, k: nat) {
    k <= |items| && forall j :: 0 <= j < k ==> items[j].Header?
  }

  /** The first `lead` items are directories, and the next one is not. */
  ghost predicate LeadsWith(items: seq<TarItem>, lead: nat) {
    && HeadersUpTo(items, lead) && (forall j :: 0 <= j < lead ==> items[j].entry.isDir)
    && (lead < |items| ==> !(items[lead].Header? && items[lead].entry.isDir))
  }

  /** Entries from position `lead` on, up to position k. */
  ghost predicate ZippedUpTo(zip: seq<ZipEntry>, items: seq<TarItem>, lead: nat, k: nat)
    requires HeadersUpTo(items, k)
  {
    && |zip| == (if k <= lead then 0 else k - lead)
    && forall j :: 0 <= j < |zip| ==> zip[j] == Zipped(items[lead + j].entry, lead > 0)
  }

  lemma OneMoreZipped(zip: seq<ZipEntry>, items: seq<TarItem>, lead: nat, k: nat)
    requires HeadersUpTo(items, k + 1) && lead <= k && HeadersUpTo(items, k) && ZippedUpTo(zip, items, lead, k)
    ensures ZippedUpTo(zip + [Zipped(items[k].entry, lead > 0)], items, lead, k + 1)
  {
  }

  lemma Leading(items: seq<TarItem>) returns (lead: nat)
    ensures LeadsWith(items, lead)
  {
    lead := LeadingDirs(items);
  }

  /** What the loop has written when it stops at k is the zip. */
  lemma StopsAt(zip: seq<ZipEntry>, items: seq<TarItem>, lead: nat, k: nat)
    requires LeadsWith(items, lead) && HeadersUpTo(items, k) && ZippedUpTo(zip, items, lead, k)
    requires k == |items| || items[k].Corrupt?
    ensures IsZipOf(zip, items)
    ensures k == |items| <==> forall item :: item in items ==> item.Header?
  {
    LeadIsUnique(items, lead);
    ReadableIsUnique(items, k);
    ReadableIsAllIff(items);
  }

  lemma {:induction false} LeadIsUnique(items: seq<TarItem>, lead: nat)
    requires LeadsWith(items, lead)
    ensures LeadingDirs(items) == lead
  {
    if lead > 0 {
      LeadIsUnique(items[1..], lead - 1);
    }
  }

  lemma {:induction false} ReadableIsUnique(items: seq<TarItem>, k: nat)
    requires HeadersUpTo(items, k) && (k == |items| || items[k].Corrupt?)
    ensures Readable(items) == k
  {
    if k > 0 {
      ReadableIsUnique(items[1..], k - 1);
    }
  }

  /** The zip name and content of an entry, as the loop body computes them. */
  method ZipOne(e: TarEntry, hasRootFolder: bool) returns (z: ZipEntry)
    ensures z == Zipped(e, hasRootFolder)
  {
    var name := e.name;
    if hasRootFolder {
      var parts := Split(e.name);
      name := Join(parts[1..]);
    }
    return ZipEntry(name, !e.isDir, if e.isDir then [] else e.content);
  }

  /** What becomes of a tar entry after `lead` leading directories: the name loses what precedes its first
      slash, if there are any; files keep their content and are compressed, directories have none. */
  ghost predicate CarriesOver(e: TarEntry, z: ZipEntry, lead: nat) {
    && z.name == (if lead > 0 then AfterSlash(e.name) else e.name)
    && (if e.isDir then z.content == [] && !z.deflated else z.content == e.content && z.deflated)
  }

  /** The zip entries are the items after `lead` leading directories, in order. */
  ghost predicate AllCarryOver(zip: seq<ZipEntry>, items: seq<TarItem>, lead: nat) {
    && lead + |zip| <= |items|
    && forall k :: 0 <= k < |zip| ==> items[lead + k].Header? && CarriesOver(items[lead + k].entry, zip[k], lead)
  }

  /** writeTarToZip; `ok` is false if reading the tar failed. */
  method WriteTarToZip(items: seq<TarItem>) returns (zip: seq<ZipEntry>, ok: bool)
    ensures IsZipOf(zip, items)
    ensures ok <==> forall item :: item in items ==> item.Header?
    ensures AllCarryOver(zip, items, LeadingDirs(items))
  {
    zip, ok := WriteEntries(items);
    EntriesCarryOver(zip, items, LeadingDirs(items));
  }

  /** Its loop. */
  method WriteEntries(items: seq<TarItem>) returns (zip: seq<ZipEntry>, ok: bool)
    ensures IsZipOf(zip, items)
    ensures ok <==> forall item :: item in items ==> item.Header?
  {
    zip := [];
    var hasRootFolder, i := false, 0;
    ghost var lead := Leading(items);
    for k := 0 to |items|
      invariant HeadersUpTo(items, k)
      invariant i == |zip| && ZippedUpTo(zip, items, lead, k)
      invariant hasRootFolder <==> k > 0 && lead > 0
    {
      if items[k].Corrupt? {
        StopsAt(zip, items, lead, k);
        return zip, false;
      }
      var e := items[k].entry;
      if i == 0 && e.isDir {
        hasRootFolder := true;
        continue;
      }
      var z := ZipOne(e, hasRootFolder);
      OneMoreZipped(zip, items, lead, k);
      zip := zip + [z];
      i := i + 1;
    }
    StopsAt(zip, items, lead, |items|);
    return zip, true;
  }

  lemma EntriesCarryOver(zip: seq<ZipEntry>, items: seq<TarItem>, lead: nat)
    requires lead + |zip| <= Readable(items)
    requires forall k :: 0 <= k < |zip| ==> zip[k] == Zipped(items[lead + k].entry, lead > 0)
    ensures AllCarryOver(zip, items, lead)
  {
    forall k | 0 <= k < |zip|
      ensures items[lead + k].Header? && CarriesOver(items[lead + k].entry, zip[k], lead)
    {
      ZippedCarriesOver(items[lead + k].entry, lead);
    }
  }

  lemma ZippedCarriesOver(e: TarEntry, lead: nat)
    ensures CarriesOver(e, Zipped(e, lead > 0), lead)
  {
    StrippedIsAfterSlash(e.name);
  }

  lemma ReadableIsAllIff(items: seq<TarItem>)
    ensures Readable(items) == |items| <==> forall item :: item in items ==> item.Header?
  {
    assert Readable(items) < |items| ==> items[Readable(items)] in items;
  }

  // ----- What happens to names -----

  ghost predicate DistinctTarNames(items: seq<TarItem>) {
    forall k, l :: 0 <= k < l < Readable(items) ==> items[k].entry.name != items[l].entry.name
  }

  ghost predicate DistinctZipNames(zip: seq<ZipEntry>) {
    forall k, l :: 0 <= k < l < |zip| ==> zip[k].name != zip[l].name
  }

  ghost predicate Under(segment: string, name: string) {
    segment + "/" <= name
  }

  ghost predicate AllUnder(items: seq<TarItem>, segment: string) {
    '/' !in segment && forall k :: 0 <= k < Readable(items) ==> Under(segment, items[k].entry.name)
  }

  /** The tar name is the zip name with the segment and a slash in front. */
  ghost predicate Prefixed(segment: string, tarName: string, zipName: string) {
    tarName == segment + "/" + zipName
  }

  lemma StrippedBack(segment: string, name: string)
    requires '/' !in segment && Under(segment, name)
    ensures Prefixed(segment, name, Stripped(name))
  {
    var rest := name[|segment| + 1..];
    assert name == segment + "/" + rest;
    StripsSegment(segment, rest);
  }

  /** Every entry of the zip lost exactly the segment. */
  ghost predicate LosesSegment(zip: seq<ZipEntry>, items: seq<TarItem>, lead: nat, segment: string)
    requires lead + |zip| <= Readable(items)
  {
    forall k :: 0 <= k < |zip| ==> Prefixed(segment, items[lead + k].entry.name, zip[k].name)
  }

  /** An archive that starts with a file keeps its names. */
  lemma FileFirstKeepsNames(zip: seq<ZipEntry>, items: seq<TarItem>)
    requires IsZipOf(zip, items) && items != [] && items[0].Header? && !items[0].entry.isDir
    ensures |zip| == Readable(items)
    ensures forall k :: 0 <= k < |zip| ==>
              zip[k].name == items[k].entry.name
              && zip[k].content == (if items[k].entry.isDir then [] else items[k].entry.content)
    ensures DistinctZipNames(zip) <==> DistinctTarNames(items)
  {
  }

  /** An archive that starts with a directory and has all names under one segment loses exactly that
      segment, so distinct names stay distinct. */
  lemma RootFolderIsStripped(zip: seq<ZipEntry>, items: seq<TarItem>, segment: string)
    requires IsZipOf(zip, items) && items != [] && items[0].Header? && items[0].entry.isDir
    requires AllUnder(items, segment)
    ensures LeadingDirs(items) > 0 && LosesSegment(zip, items, LeadingDirs(items), segment)
    ensures DistinctTarNames(items) ==> DistinctZipNames(zip)
  {
    var lead := LeadingDirs(items);
    forall k | 0 <= k < |zip|
      ensures Prefixed(segment, items[lead + k].entry.name, zip[k].name)
    {
      StrippedBack(segment, items[lead + k].entry.name);
    }
    if DistinctTarNames(items) {
      PrefixKeepsDistinct(zip, items, lead, segment);
    }
  }

  lemma PrefixKeepsDistinct(zip: seq<ZipEntry>, items: seq<TarItem>, lead: nat, segment: string)
    requires lead + |zip| <= Readable(items) && DistinctTarNames(items) && LosesSegment(zip, items, lead, segment)
    ensures DistinctZipNames(zip)
  {
  }

  /** No two readable entries after the leading directories have the same text after the first slash. */
  ghost predicate DistinctAfterSlash(items: seq<TarItem>) {
    forall k, l :: LeadingDirs(items) <= k < l < Readable(items) ==>
                     AfterSlash(items[k].entry.name) != AfterSlash(items[l].entry.name)
  }

  /** For any archive that starts with a directory: zip names are distinct if and only if the tar names
      differ after their first slash. */
  lemma DistinctIffAfterSlash(zip: seq<ZipEntry>, items: seq<TarItem>)
    requires IsZipOf(zip, items) && LeadingDirs(items) > 0
    ensures DistinctZipNames(zip) <==> DistinctAfterSlash(items)
  {
    var lead := LeadingDirs(items);
    forall k | 0 <= k < |zip|
      ensures zip[k].name == AfterSlash(items[lead + k].entry.name)
    {
      StrippedIsAfterSlash(items[lead + k].entry.name);
    }
    if DistinctZipNames(zip) {
      forall k, l | lead <= k < l < Readable(items)
        ensures AfterSlash(items[k].entry.name) != AfterSlash(items[l].entry.name)
      {
        assert zip[k - lead].name != zip[l - lead].name;
      }
    }
  }

  /** With two top-level segments names can clash: "a/x" and "b/x" both become "x". */
  lemma TwoRootsClash(x: string)
    requires x != ""
    ensures var items := [Header(TarEntry("a/", true, [])), Header(TarEntry("a/" + x, false, [])),
              Header(TarEntry("b/" + x, false, []))];
            && DistinctTarNames(items)
            && forall zip: seq<ZipEntry> :: IsZipOf(zip, items) ==> |zip| == 2 && zip[0].name == zip[1].name == x
  {
    var items := [Header(TarEntry("a/", true, [])), Header(TarEntry("a/" + x, false, [])),
            Header(TarEntry("b/" + x, false, []))];
    StripsSegment("a", x);
    StripsSegment("b", x);
    assert "a" + "/" + x == "a/" + x && "b" + "/" + x == "b/" + x;
    assert items[2].entry.name[0] != items[1].entry.name[0];
    assert items[2].entry.name[0] != items[0].entry.name[0];
    assert |items[0].entry.name| != |items[1].entry.name|;
    assert LeadingDirs(items) == 1;
    assert Readable(items) == 3;
  }
}
