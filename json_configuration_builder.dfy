/** The catalog serialiser (src/config_manager/model/JsonConfigurationBuilder.java):
    renders a list of tile types as a fixed-layout JSON text, one entry per line, and
    refuses a list in which two tile types share an id. */
module JsonConfiguration {
  import opened Wrappers
  import opened Text
  import opened TileTypes

  const Header := "{\n\t\"tiles\" : [\n"
  const Footer := "\t]\n}"
  const IdWidth := 4
  const NameWidth := 33
  const TextureWidth := 33

  function Quote(s: string): string
  {
    "\"" + s + "\""
  }

  function QuotedTags(tags: seq<string>): seq<string>
  {
    seq(|tags|, i requires 0 <= i < |tags| => Quote(tags[i]))
  }

  /** The formatted start of an entry: id, name and texture, each followed by a comma
      and left-justified in its column, then the opening of the tag list. */
  function EntryHead(id: int, name: string, texture: string): string
  {
    "\t\t{\"id\" : " + PadRight(IntToString(id) + ",", IdWidth) +
    " \"name\" : " + PadRight(Quote(name) + ",", NameWidth) +
    " \"texture\" : " + PadRight(Quote(texture) + ",", TextureWidth) +
    " \"tags\" : ["
  }

  /** One entry: the head, the quoted tags separated by ", ", and the closing brackets. */
  function EntryLine(id: int, name: string, texture: string, tags: seq<string>): string
  {
    EntryHead(id, name, texture) + Join(QuotedTags(tags), ", ") + "]}"
  }

  /** The entry lines of a list of tile types, in order. */
  function EntryLines(ts: seq<TileType>): (r: seq<string>)
    ensures |r| == |ts|
  {
    if ts == [] then []
    else
      var t := ts[|ts| - 1];
      EntryLines(ts[..|ts| - 1]) + [EntryLine(t.id, t.name, t.texture, t.tags)]
  }

  /** The whole document: the entries separated by ",\n", the last one ended by "\n". */
  function Configuration(lines: seq<string>): string
  {
    Header + Join(lines, ",\n") + (if lines == [] then "" else "\n") + Footer
  }

  function NotUniqueMessage(id: int): string
  {
    "Tile type with not unique id=" + IntToString(id) + " fetched"
  }

  predicate DistinctIds(ts: seq<TileType>)
  {
    forall a, b :: 0 <= a < b < |ts| ==> ts[a].id != ts[b].id
  }

  /** Entry k is the first whose id an earlier entry already had. */
  predicate FirstDuplicateAt(ts: seq<TileType>, k: nat)
  {
    k < |ts| && DistinctIds(ts[..k]) && exists a :: 0 <= a < k && ts[a].id == ts[k].id
  }

  /** The message names the id of the first duplicate, entry k. */
  predicate ReportsDuplicate(ts: seq<TileType>, k: nat, message: string)
  {
    FirstDuplicateAt(ts, k) && message == NotUniqueMessage(ts[k].id)
  }

  /** The ids of a list of tile types, as the builder's HashSet collects them. */
  function IdSet(ts: seq<TileType>): set<int>
  {
    if ts == [] then {} else IdSet(ts[..|ts| - 1]) + {ts[|ts| - 1].id}
  }

  /** An id is collected iff some tile type of the list has it. */
  lemma {:induction false} IdSetSpec(ts: seq<TileType>, id: int)
    ensures id in IdSet(ts) <==> exists a :: 0 <= a < |ts| && ts[a].id == id
  {
    if ts != [] {
      var init := ts[..|ts| - 1];
      IdSetSpec(init, id);
      if id in IdSet(init) {
        var a :| 0 <= a < |init| && init[a].id == id;
        assert ts[a].id == id;
      }
      if exists a :: 0 <= a < |ts| && ts[a].id == id {
        var a :| 0 <= a < |ts| && ts[a].id == id;
        if a < |init| {
          assert init[a].id == id;
        }
      }
    }
  }

  lemma IdSetWitness(ts: seq<TileType>, id: int) returns (a: nat)
    requires id in IdSet(ts)
    ensures a < |ts| && ts[a].id == id
  {
    IdSetSpec(ts, id);
    a :| 0 <= a < |ts| && ts[a].id == id;
  }

  lemma IdSetSnoc(ts: seq<TileType>, k: nat)
    requires k < |ts|
    ensures IdSet(ts[..k + 1]) == IdSet(ts[..k]) + {ts[k].id}
  {
    assert ts[..k + 1][..k] == ts[..k];
  }

  datatype JsonConfigurationBuilder = JsonConfigurationBuilder(tileTypeIDs: set<int>, configuration: string)
  {
    function GetConfiguration(): string
    {
      configuration
    }
  }

  /** The constructor: the ids are collected in a set while the text is built; a
      repeated id aborts with a message naming it. */
  method NewJsonConfigurationBuilder(tileTypeCollection: seq<TileType>)
    returns (r: Result<JsonConfigurationBuilder, string>)
    ensures r.Success? <==> DistinctIds(tileTypeCollection)
    ensures r.Failure? ==>
      exists k: nat :: ReportsDuplicate(tileTypeCollection, k, r.error)
    ensures r.Success? ==>
      r.value.GetConfiguration() == Configuration(EntryLines(tileTypeCollection)) &&
      r.value.tileTypeIDs == IdSet(tileTypeCollection)
  {
    var ts := tileTypeCollection;
    var sb := Header;
    var tileTypeIDs: set<int> := {};
    for k := 0 to |ts|
      invariant tileTypeIDs == IdSet(ts[..k])
      invariant DistinctIds(ts[..k])
      invariant sb == Header + Terminated(EntryLines(ts[..k]), ",\n")
    {
      var t := ts[k];
      if t.id in tileTypeIDs {
        var a := IdSetWitness(ts[..k], t.id);
        DuplicateFound(ts, k, a);
        r := Failure(NotUniqueMessage(t.id));
        assert ReportsDuplicate(ts, k, r.error);
        return;
      }
      DistinctExtend(ts, k);
      tileTypeIDs := tileTypeIDs + {t.id};
      IdSetSnoc(ts, k);
      ConfigurationStep(ts, k, sb);
      sb := AppendEntry(sb, t);
    }
    assert ts[..|ts|] == ts;
    sb := CloseConfiguration(sb, EntryLines(ts));
    return Success(JsonConfigurationBuilder(tileTypeIDs, sb));
  }

  /** The end of the constructor: the comma after the last entry is deleted when the
      last-but-one character is a comma, then the list and the object are closed. */
  method CloseConfiguration(sb: string, ghost lines: seq<string>) returns (out: string)
    requires sb == Header + Terminated(lines, ",\n")
    ensures out == Configuration(lines)
  {
    out := sb;
    if LastIndexOf(out, ",") == |out| - 2 {
      out := out[..|out| - 2] + out[|out| - 1..];
    }
    TrimFinalComma(lines, sb, out);
    out := out + "\t]\n";
    out := out + "}";
  }

  /** One loop round of the constructor: the formatted head, the tag list, and the
      entry closed with "]},\n". */
  method AppendEntry(sb: string, t: TileType) returns (out: string)
    ensures out == sb + EntryLine(t.id, t.name, t.texture, t.tags) + ",\n"
  {
    var head := EntryHead(t.id, t.name, t.texture);
    EntryHeadEnd(t.id, t.name, t.texture);
    out := AppendTags(sb + head, t.tags);
    out := out + "]";
    out := out + "},\n";
    CloseEntry(sb, head, Join(QuotedTags(t.tags), ", "));
  }

  /** Closing an entry in two appends gives the entry line followed by ",\n". */
  lemma CloseEntry(sb: string, head: string, tags: string)
    ensures sb + head + tags + "]" + "},\n" == sb + (head + tags + "]}") + ",\n"
  {
  }

  /** The tag list of an entry: each tag quoted and followed by ", ", then the
      trailing ", " removed when the text ends with it. */
  method AppendTags(prefix: string, tags: seq<string>) returns (out: string)
    requires |prefix| >= 2 && prefix[|prefix| - 1] == '['
    ensures out == prefix + Join(QuotedTags(tags), ", ")
  {
    ghost var quoted := QuotedTags(tags);
    out := prefix;
    for m := 0 to |tags|
      invariant out == prefix + Terminated(quoted[..m], ", ")
    {
      TerminatedStep(quoted, ", ", m);
      AppendQuoted(out, tags[m]);
      out := out + "\"";
      out := out + tags[m];
      out := out + "\", ";
    }
    assert quoted[..|tags|] == quoted;
    ghost var built := out;
    if LastIndexOf(out, ", ") == |out| - 2 {
      out := out[..|out| - 2];
    }
    TrimTrailingSeparator(prefix, quoted, built, out);
  }

  /** An id equal to an earlier one, after distinct ones, is the first duplicate. */
  lemma DuplicateFound(ts: seq<TileType>, k: nat, a: nat)
    requires a < k < |ts| && ts[a].id == ts[k].id && DistinctIds(ts[..k])
    ensures FirstDuplicateAt(ts, k) && !DistinctIds(ts)
  {
  }

  lemma DistinctExtend(ts: seq<TileType>, k: nat)
    requires k < |ts| && DistinctIds(ts[..k])
    requires ts[k].id !in IdSet(ts[..k])
    ensures DistinctIds(ts[..k + 1])
  {
    forall a, b | 0 <= a < b < k + 1
      ensures ts[a].id != ts[b].id
    {
      if b == k {
        IdSetSpec(ts[..k], ts[a].id);
        assert ts[..k][a].id == ts[a].id;
      } else {
        assert ts[..k][a].id != ts[..k][b].id;
      }
    }
    assert forall a :: 0 <= a < k + 1 ==> ts[..k + 1][a] == ts[a];
  }

  /** Appending entry k to the text of entries 0..k-1 gives the text of entries 0..k. */
  lemma ConfigurationStep(ts: seq<TileType>, k: nat, sb: string)
    requires k < |ts| && sb == Header + Terminated(EntryLines(ts[..k]), ",\n")
    ensures sb + EntryLine(ts[k].id, ts[k].name, ts[k].texture, ts[k].tags) + ",\n"
         == Header + Terminated(EntryLines(ts[..k + 1]), ",\n")
  {
    var line := EntryLine(ts[k].id, ts[k].name, ts[k].texture, ts[k].tags);
    var before := Terminated(EntryLines(ts[..k]), ",\n");
    EntryLinesSnoc(ts, k);
    TerminatedSnoc(EntryLines(ts[..k]), line, ",\n");
    AppendAssoc(Header, before, line, ",\n");
  }

  lemma AppendAssoc(a: string, b: string, c: string, d: string)
    ensures a + b + c + d == a + (b + c + d)
  {
  }

  lemma EntryLinesSnoc(ts: seq<TileType>, k: nat)
    requires k < |ts|
    ensures EntryLines(ts[..k + 1]) == EntryLines(ts[..k]) + [EntryLine(ts[k].id, ts[k].name, ts[k].texture, ts[k].tags)]
  {
    assert ts[..k + 1][..k] == ts[..k];
  }

  lemma TerminatedSnoc(parts: seq<string>, part: string, sep: string)
    ensures Terminated(parts + [part], sep) == Terminated(parts, sep) + part + sep
  {
    assert (parts + [part])[..|parts|] == parts;
  }

  /** Terminating one more part of a list. */
  lemma TerminatedStep(parts: seq<string>, sep: string, m: nat)
    requires m < |parts|
    ensures Terminated(parts[..m + 1], sep) == Terminated(parts[..m], sep) + parts[m] + sep
  {
    assert parts[..m + 1][..m] == parts[..m];
  }

  lemma AppendQuoted(pre: string, tag: string)
    ensures pre + "\"" + tag + "\", " == pre + Quote(tag) + ", "
  {
  }

  lemma EntryHeadEnd(id: int, name: string, texture: string)
    ensures |EntryHead(id, name, texture)| >= 2
    ensures EntryHead(id, name, texture)[|EntryHead(id, name, texture)| - 1] == '['
  {
  }

  /** The test on ", " after the tag loop removes the separator that follows the last
      tag, and removes nothing when there are no tags (the text then ends with "["). */
  lemma TrimTrailingSeparator(prefix: string, quoted: seq<string>, built: string, trimmed: string)
    requires |prefix| >= 2 && prefix[|prefix| - 1] == '['
    requires built == prefix + Terminated(quoted, ", ")
    requires trimmed == if LastIndexOf(built, ", ") == |built| - 2 then built[..|built| - 2] else built
    ensures trimmed == prefix + Join(quoted, ", ")
  {
    if quoted != [] {
      TerminatedIsJoinedPlusSep(quoted, ", ");
      assert built == (prefix + Join(quoted, ", ")) + ", ";
      assert EndsWith(built, ", ");
      LastIndexAtEndIffEndsWith(built, ", ");
      assert built[..|built| - 2] == prefix + Join(quoted, ", ");
    } else {
      assert built == prefix;
      assert built[|built| - 1] == '[';
      LastIndexAtEndIffEndsWith(built, ", ");
      assert built[|built| - 2..][1] != ' ';
    }
  }

  /** The test on "," at the end removes the comma after the last entry, and removes
      nothing when there are no entries (the text is then the header). */
  lemma TrimFinalComma(lines: seq<string>, built: string, trimmed: string)
    requires built == Header + Terminated(lines, ",\n")
    requires trimmed ==
      if LastIndexOf(built, ",") == |built| - 2 then built[..|built| - 2] + built[|built| - 1..] else built
    ensures trimmed + "\t]\n" + "}" == Configuration(lines)
  {
    LastIndexOfCharIsSecondLast(built, ',');
    if lines != [] {
      TerminatedIsJoinedPlusSep(lines, ",\n");
      var body := Header + Join(lines, ",\n");
      assert built == body + ",\n";
      assert built[|built| - 2] == ',' && built[|built| - 1] == '\n';
      assert trimmed == body + "\n";
    } else {
      assert built == Header;
      assert built[|built| - 2] == '[';
    }
  }

  /** The document opens the object and its "tiles" list and closes both; an entry
      list puts one entry per line, every line but the last followed by a comma. */
  lemma ConfigurationFrame(lines: seq<string>)
    ensures Configuration(lines)[..|Header|] == Header
    ensures EndsWith(Configuration(lines), Footer)
    ensures lines != [] ==> Configuration(lines) == Header + Join(lines, ",\n") + "\n" + Footer
    ensures lines == [] ==> Configuration(lines) == Header + Footer
  {
  }

  /** The padding aligns the columns: whenever the id takes at most three characters
      and the name and the texture at most thirty, the tag list starts at the same
      column for every entry: the head is 114 characters long, so the tags begin after 114 characters (at 0-based index 114). */
  lemma ColumnsAligned(id: int, name: string, texture: string)
    requires |IntToString(id)| <= IdWidth - 1
    requires |name| <= NameWidth - 3 && |texture| <= TextureWidth - 3
    ensures |EntryHead(id, name, texture)| == 114
  {
  }

  /** The serialiser's duplicate-id test: the second of two tile types with id 1 is
      refused with a message naming id 1. */
  method DuplicateExample()
  {
    var t1 := new TileType(1, "TILE_TYPE_1", "tileType1.png", ["GRASS"]);
    var t2 := new TileType(1, "TILE_TYPE_2", "tileType2.png", ["DIRT"]);
    var r := NewJsonConfigurationBuilder([t1, t2]);
    assert !DistinctIds([t1, t2]);
    assert r.Failure?;
    var k: nat :| ReportsDuplicate([t1, t2], k, r.error);
    assert k == 1;
    assert IntToString(1) == "1";
    assert r.error == "Tile type with not unique id=1 fetched";
  }
}
