/** The tag queries over the catalog of tile types that both manager variants offer:
    the basic ("COMMON") types, the types related to a given one, and the types that
    carry every tag of a list. Each keeps catalog order, as the source's loops do. */
module Catalog {
  import opened Seqs
  import opened TileTypes

  const CommonTag := "COMMON"

  predicate IsBasic(t: TileType)
  {
    CommonTag in t.tags
  }

  /** t shares a tag other than "COMMON" with tileType. */
  predicate IsRelated(tileType: TileType, t: TileType)
  {
    exists s | s in tileType.tags :: s != CommonTag && s in t.tags
  }

  predicate HasAllTags(t: TileType, commonTags: seq<string>)
  {
    forall c | c in commonTags :: c in t.tags
  }

  /** getBasicTileTypes */
  function BasicTileTypes(all: seq<TileType>): seq<TileType>
  {
    Filter(all, IsBasic)
  }

  /** getRelatedTileTypes: the inner loop breaks after the first shared tag, so an entry
      is added once, not once per shared tag. */
  function RelatedTileTypes(all: seq<TileType>, tileType: TileType): seq<TileType>
  {
    Filter(all, t => IsRelated(tileType, t))
  }

  /** getTileTypesWithTags: an empty tag list selects nothing, although every type would
      contain all of its (zero) tags. */
  function TileTypesWithTags(all: seq<TileType>, commonTags: seq<string>): seq<TileType>
  {
    if commonTags == [] then [] else Filter(all, t => HasAllTags(t, commonTags))
  }

  lemma BasicTileTypesSpec(all: seq<TileType>, t: TileType)
    ensures t in BasicTileTypes(all) <==> t in all && CommonTag in t.tags
    ensures multiset(BasicTileTypes(all))[t] == if CommonTag in t.tags then multiset(all)[t] else 0
    ensures IsSubsequence(BasicTileTypes(all), all)
  {
    FilterMembers(all, IsBasic, t);
    FilterMultiplicity(all, IsBasic, t);
    FilterIsSubsequence(all, IsBasic);
  }

  /** Each catalog entry appears in the related list exactly as often as in the catalog
      when it shares a non-"COMMON" tag, and not at all otherwise. */
  lemma RelatedTileTypesSpec(all: seq<TileType>, tileType: TileType, t: TileType)
    ensures t in RelatedTileTypes(all, tileType) <==>
      t in all && exists s | s in tileType.tags :: s != CommonTag && s in t.tags
    ensures multiset(RelatedTileTypes(all, tileType))[t] ==
      if IsRelated(tileType, t) then multiset(all)[t] else 0
    ensures IsSubsequence(RelatedTileTypes(all, tileType), all)
  {
    var p := t => IsRelated(tileType, t);
    FilterMembers(all, p, t);
    FilterMultiplicity(all, p, t);
    FilterIsSubsequence(all, p);
  }

  /** A catalog entry with a tag of its own other than "COMMON" is related to itself. */
  lemma RelatedIncludesItself(all: seq<TileType>, tileType: TileType, s: string)
    requires tileType in all && s in tileType.tags && s != CommonTag
    ensures tileType in RelatedTileTypes(all, tileType)
  {
    FilterMembers(all, t => IsRelated(tileType, t), tileType);
  }

  /** A type tagged only "COMMON" has no related types. */
  lemma OnlyCommonHasNoRelated(all: seq<TileType>, tileType: TileType)
    requires forall s | s in tileType.tags :: s == CommonTag
    ensures RelatedTileTypes(all, tileType) == []
  {
    var p := t => IsRelated(tileType, t);
    if RelatedTileTypes(all, tileType) != [] {
      var t := RelatedTileTypes(all, tileType)[0];
      FilterMembers(all, p, t);
      assert false;
    }
  }

  lemma TileTypesWithTagsSpec(all: seq<TileType>, commonTags: seq<string>, t: TileType)
    ensures commonTags == [] ==> TileTypesWithTags(all, commonTags) == []
    ensures t in TileTypesWithTags(all, commonTags) <==>
      commonTags != [] && t in all && forall c | c in commonTags :: c in t.tags
    ensures IsSubsequence(TileTypesWithTags(all, commonTags), all)
  {
    if commonTags == [] {
      assert IsSubsequence<TileType>([], all);
    } else {
      var p := t => HasAllTags(t, commonTags);
      FilterMembers(all, p, t);
      FilterIsSubsequence(all, p);
    }
  }

  /** Asking for more tags can only narrow the selection. */
  lemma TileTypesWithMoreTags(all: seq<TileType>, commonTags: seq<string>, extra: seq<string>, t: TileType)
    requires commonTags != []
    requires t in TileTypesWithTags(all, commonTags + extra)
    ensures t in TileTypesWithTags(all, commonTags)
  {
    TileTypesWithTagsSpec(all, commonTags + extra, t);
    TileTypesWithTagsSpec(all, commonTags, t);
  }
}
