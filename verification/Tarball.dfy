/** The manifest scan over an uploaded tarball. Decompression, tar framing and JSON are library
    code: what they yield is a sequence of entries and a partial function. */
module Tarball {
  import opened Content

  datatype Manifest = Manifest(name: string, version: string)

  /** One header and what io.ReadAll makes of its content: None when the read fails. */
  datatype Entry = Entry(name: string, size: int, content: Option<Bytes>)

  /** The entries that the tar reader delivers, and whether io.EOF or an error comes after them. */
  datatype Archive = Archive(entries: seq<Entry>, intact: bool)

  type Json = Bytes -> Option<Manifest>

  datatype ScanError = BadTar | Unreadable(name: string) | BadJson(name: string)
  datatype Scan = Found(manifest: Manifest, raw: Bytes) | NoManifest | ScanFailed(error: ScanError)

  const MANIFEST_NAMES := {"manifest.json", "drover-registry.json", "package.json"}

  /** Two characters outside ASCII have an ASCII lower case. The others keep out of ASCII, so it
      does not matter here which they become. */
  function LowerChar(c: char): char {
    if 'A' <= c <= 'Z' then c + 32 as char
    else if c == '\U{0130}' then 'i'
    else if c == '\U{212A}' then 'k'
    else c
  }

  function ToLower(s: string): string {
    seq(|s|, i requires 0 <= i < |s| => LowerChar(s[i]))
  }

  predicate IsManifestName(name: string) {
    ToLower(TrimPrefix(name, "./")) in MANIFEST_NAMES
  }

  /** One text is the other in lower case: letter by letter, with the two foreign letters that have
      an ASCII lower case. */
  predicate SpellsInLowerCase(s: string, lower: string) {
    |s| == |lower| && forall i | 0 <= i < |s| ::
      if 'A' <= s[i] <= 'Z' then lower[i] as int == s[i] as int + 32
      else if s[i] == '\U{0130}' then lower[i] == 'i'
      else if s[i] == '\U{212A}' then lower[i] == 'k'
      else lower[i] == s[i]
  }

  lemma LowerCaseIs(s: string, lower: string)
    ensures ToLower(s) == lower <==> SpellsInLowerCase(s, lower)
  {
    if SpellsInLowerCase(s, lower) {
      forall i | 0 <= i < |s|
        ensures ToLower(s)[i] == lower[i]
      {
        assert 'A' <= s[i] <= 'Z' ==> ToLower(s)[i] as int == lower[i] as int;
      }
    }
  }

  /** A manifest is what is called by one of the three names, in any case, at the root, with or
      without "./" in front of it. */
  lemma ManifestNamesExactly(name: string)
    ensures IsManifestName(name) <==>
            exists base | base == name || name == "./" + base ::
              && !(base == name && HasPrefix(name, "./"))
              && (|| SpellsInLowerCase(base, "manifest.json") || SpellsInLowerCase(base, "drover-registry.json")
                  || SpellsInLowerCase(base, "package.json"))
  {
    var trimmed := TrimPrefix(name, "./");
    LowerCaseIs(trimmed, "manifest.json");
    LowerCaseIs(trimmed, "drover-registry.json");
    LowerCaseIs(trimmed, "package.json");
    if HasPrefix(name, "./") {
      assert name == "./" + trimmed;
      forall base | name == "./" + base ensures base == trimmed { assert ("./" + base)[2..] == base; }
    }
    assert IsManifestName(name) <==>
      (|| SpellsInLowerCase(trimmed, "manifest.json") || SpellsInLowerCase(trimmed, "drover-registry.json")
       || SpellsInLowerCase(trimmed, "package.json"));
  }

  /** What the first manifest of an archive says. */
  function FirstManifest(json: Json, a: Archive): Scan
    decreases |a.entries|
  {
    if a.entries == [] then (if a.intact then NoManifest else ScanFailed(BadTar))
    else if IsManifestName(a.entries[0].name) then Decoded(json, a.entries[0])
    else FirstManifest(json, a.(entries := a.entries[1..]))
  }

  function Decoded(json: Json, e: Entry): Scan {
    match e.content
    case None => ScanFailed(Unreadable(e.name))
    case Some(raw) =>
      match json(raw)
      case None => ScanFailed(BadJson(e.name))
      case Some(m) => Found(m, raw)
  }

  predicate FirstAt(a: Archive, i: nat) {
    i < |a.entries| && IsManifestName(a.entries[i].name) && forall k | 0 <= k < i :: !IsManifestName(a.entries[k].name)
  }

  /** The outcome is that of the first entry with a manifest's name, whatever comes behind it and
      even when the archive breaks off there: its very bytes and what JSON makes of them, or that it
      cannot be read or is no JSON. Without such an entry it only matters how the archive ends. */
  lemma {:induction false} FirstManifestDecides(json: Json, a: Archive)
    ensures forall i: nat | FirstAt(a, i) ::
              var e := a.entries[i]; var scan := FirstManifest(json, a);
              && (e.content.None? ==> scan == ScanFailed(Unreadable(e.name)))
              && (e.content.Some? && json(e.content.value).None? ==> scan == ScanFailed(BadJson(e.name)))
              && (e.content.Some? && json(e.content.value).Some? ==>
                    scan == Found(json(e.content.value).value, e.content.value))
    ensures (forall k | 0 <= k < |a.entries| :: !IsManifestName(a.entries[k].name)) ==>
              FirstManifest(json, a) == if a.intact then NoManifest else ScanFailed(BadTar)
    decreases |a.entries|
  {
    if a.entries != [] && !IsManifestName(a.entries[0].name) {
      var rest := a.(entries := a.entries[1..]);
      FirstManifestDecides(json, rest);
      forall i: nat | FirstAt(a, i)
        ensures FirstManifest(json, a) == FirstManifest(json, rest) && rest.entries[i - 1] == a.entries[i]
        ensures i > 0 && FirstAt(rest, i - 1)
      {
        assert forall k | 0 <= k < i - 1 :: rest.entries[k] == a.entries[k + 1];
      }
    }
  }

  /** archive/tar.Reader: Next moves on, skipping what was not read. */
  class TarReader {
    const archive: Archive
    var next: nat

    constructor (archive: Archive)
      ensures this.archive == archive && next == 0
    {
      this.archive := archive;
      next := 0;
    }

    method Next() returns (entry: Option<Entry>, eof: bool)
      requires next <= |archive.entries|
      modifies this`next
      ensures old(next) < |archive.entries| ==> entry == Some(archive.entries[old(next)]) && next == old(next) + 1
      ensures old(next) == |archive.entries| ==> entry == None && eof == archive.intact && next == old(next)
    {
      eof := next == |archive.entries| && archive.intact;
      if next < |archive.entries| {
        entry := Some(archive.entries[next]);
        next := next + 1;
      } else {
        entry := None;
      }
    }
  }

  const LARGE := 2 * 1024 * 1024

  /** The size test at the end of the loop body skips nothing that is not skipped anyway. */
  method ExtractFromTar(json: Json, archive: Archive) returns (r: Scan)
    ensures r == FirstManifest(json, archive)
  {
    var tr := new TarReader(archive);
    while true
      invariant tr.archive == archive && tr.next <= |archive.entries| && fresh(tr)
      invariant FirstManifest(json, archive) == FirstManifest(json, archive.(entries := archive.entries[tr.next..]))
      decreases |archive.entries| - tr.next
    {
      var entry, eof := tr.Next();
      if entry.None? && eof { break; }
      if entry.None? { return ScanFailed(BadTar); }
      var name := entry.value.name;
      if IsManifestName(name) {
        if entry.value.content.None? { return ScanFailed(Unreadable(name)); }
        var raw := entry.value.content.value;
        var m := json(raw);
        if m.None? { return ScanFailed(BadJson(name)); }
        return Found(m.value, raw);
      }
      if entry.value.size > LARGE { continue; }
    }
    r := NoManifest;
  }

  // ---------------------------------------------------------------- coordinates

  const UNNAMED := "unnamed"
  const DEVELOPMENT := "v0.0.0-dev"

  function OrDefault(s: string, default_: string): string {
    if s == "" then default_ else s
  }

  /** Name and version of an upload: the manifest's where it states them, else those of the query,
      else fixed ones. A failed scan counts as no manifest. */
  function Coordinates(scan: Scan, queryName: string, queryVersion: string): (string, string) {
    var name, version := OrDefault(queryName, UNNAMED), OrDefault(queryVersion, DEVELOPMENT);
    if scan.Found? then (OrDefault(scan.manifest.name, name), OrDefault(scan.manifest.version, version))
       else (name, version)
  }
}
