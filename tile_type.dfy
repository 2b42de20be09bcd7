/** Tile types and the side-by-side compatibility test between them.
    Each tile type carries, for each of its 8 sub-edge slots, an optional "neighbour
    material"; two tile types may sit side by side across a list of slots when, on
    every one of those slots, this type's material and the other type's material on the
    mirror slot are both present and equal. */
module TileTypes {
  import opened Wrappers
  import opened Seqs

  /** The 8 sub-edge slots: two per side of the tile, named by side and then by the
      half of that side they cover (WSW is the southern half of the west side). */
  datatype Side = WSW | WNW | NNW | NNE | ENE | ESE | SSE | SSW

  datatype Cardinal = West | North | East | South

  /** The side of the tile a slot lies on. */
  function CardinalOf(s: Side): Cardinal
  {
    match s
    case WSW | WNW => West
    case NNW | NNE => North
    case ENE | ESE => East
    case SSE | SSW => South
  }

  /** The side of a neighbour that faces side `c` of this tile. */
  function Facing(c: Cardinal): Cardinal
  {
    match c
    case West => East
    case North => South
    case East => West
    case South => North
  }

  /** The half of its side a slot covers, as a compass direction along that side. */
  function HalfOf(s: Side): Cardinal
  {
    match s
    case WSW | ESE => South
    case WNW | ENE => North
    case NNW | SSW => West
    case NNE | SSE => East
  }

  /** The slot of the neighbouring tile that touches slot `s`: on the facing side,
      covering the same half of the shared edge. */
  function OppositeSide(s: Side): (o: Side)
    ensures o != s
    ensures CardinalOf(o) == Facing(CardinalOf(s))
    ensures HalfOf(o) == HalfOf(s)
  {
    match s
    case WSW => ESE
    case WNW => ENE
    case NNW => SSW
    case NNE => SSE
    case ENE => WNW
    case ESE => WSW
    case SSE => NNE
    case SSW => NNW
  }

  /** Taking the opposite slot twice comes back to the slot: the slots form four
      mirror pairs, WSW/ESE, WNW/ENE, NNW/SSW and NNE/SSE. */
  lemma OppositeSideIsInvolution(s: Side)
    ensures OppositeSide(OppositeSide(s)) == s
  {
  }

  /** The side and the half determine the slot, so the opposite slot is the only slot
      on the facing side covering the same half. */
  lemma OppositeSideIsUnique(s: Side, o: Side)
    requires CardinalOf(o) == Facing(CardinalOf(s)) && HalfOf(o) == HalfOf(s)
    ensures o == OppositeSide(s)
  {
  }

  /** The per-slot neighbour materials of one tile type (an EnumMap in the source);
      a slot that is absent or mapped to None has no material (null). */
  type Materials = map<Side, Option<string>>

  function MaterialAt(m: Materials, s: Side): Option<string>
  {
    if s in m then m[s] else None
  }

  /** Slot `s` of `mine` carries a material equal to the one on the mirror slot of `theirs`. */
  predicate SideMatches(mine: Materials, theirs: Materials, s: Side)
  {
    MaterialAt(mine, s).Some? && MaterialAt(mine, s) == MaterialAt(theirs, OppositeSide(s))
  }

  /** The loop of isNeighbourTo, without its empty-list guard. */
  function AllSidesMatch(mine: Materials, theirs: Materials, sides: seq<Side>): (r: bool)
    ensures r <==> forall i :: 0 <= i < |sides| ==> SideMatches(mine, theirs, sides[i])
  {
    if sides == [] then true
    else SideMatches(mine, theirs, sides[0]) && AllSidesMatch(mine, theirs, sides[1..])
  }

  /** isNeighbourTo on the materials of the two tile types. An empty side list (also the
      null varargs array, which the source treats the same way) never matches. */
  function IsNeighbour(mine: Materials, theirs: Materials, sides: seq<Side>): (r: bool)
    ensures r <==> |sides| > 0 && forall s :: s in sides ==>
      && MaterialAt(mine, s).Some?
      && MaterialAt(theirs, OppositeSide(s)).Some?
      && MaterialAt(mine, s).value == MaterialAt(theirs, OppositeSide(s)).value
  {
    |sides| > 0 && AllSidesMatch(mine, theirs, sides)
  }

  /** Each slot of a list replaced by its mirror slot. */
  function Mirror(sides: seq<Side>): (r: seq<Side>)
    ensures |r| == |sides| && forall i :: 0 <= i < |sides| ==> r[i] == OppositeSide(sides[i])
  {
    seq(|sides|, i requires 0 <= i < |sides| => OppositeSide(sides[i]))
  }

  /** Compatibility is symmetric: `a` may sit next to `b` across some slots exactly when
      `b` may sit next to `a` across the mirror slots. */
  lemma NeighbourSymmetry(a: Materials, b: Materials, sides: seq<Side>)
    ensures IsNeighbour(a, b, sides) == IsNeighbour(b, a, Mirror(sides))
  {
    var m := Mirror(sides);
    forall i | 0 <= i < |sides|
      ensures SideMatches(a, b, sides[i]) <==> SideMatches(b, a, m[i])
    {
      OppositeSideIsInvolution(sides[i]);
    }
  }

  class TileType {
    const id: int
    const name: string
    const texture: string
    const tags: seq<string>
    var neighbourMaterials: Materials

    /** A new tile type has no neighbour material on any slot. */
    constructor (id: int, name: string, texture: string, tags: seq<string>)
      ensures this.id == id && this.name == name && this.texture == texture && this.tags == tags
      ensures forall s :: GetNeighbourMaterial(s) == None
    {
      this.id := id;
      this.name := name;
      this.texture := texture;
      this.tags := tags;
      neighbourMaterials := map[];
    }

    function GetNeighbourMaterial(side: Side): Option<string>
      reads this
    {
      MaterialAt(neighbourMaterials, side)
    }

    /** Sets one slot, or every slot when `side` is None (null in the source, which then
        sets the eight slots one by one). */
    method SetNeighbourMaterial(side: Option<Side>, newMaterial: Option<string>)
      modifies this
      ensures forall s ::
                GetNeighbourMaterial(s) == (if side.None? || side.value == s then newMaterial else old(GetNeighbourMaterial(s)))
      decreases if side.None? then 1 else 0
    {
      if side.Some? {
        neighbourMaterials := neighbourMaterials[side.value := newMaterial];
      } else {
        SetNeighbourMaterial(Some(WSW), newMaterial);
        SetNeighbourMaterial(Some(WNW), newMaterial);
        SetNeighbourMaterial(Some(NNW), newMaterial);
        SetNeighbourMaterial(Some(NNE), newMaterial);
        SetNeighbourMaterial(Some(ENE), newMaterial);
        SetNeighbourMaterial(Some(ESE), newMaterial);
        SetNeighbourMaterial(Some(SSE), newMaterial);
        SetNeighbourMaterial(Some(SSW), newMaterial);
        assert forall s :: GetNeighbourMaterial(s) == newMaterial by {
          forall s ensures GetNeighbourMaterial(s) == newMaterial {
            match s
            case WSW =>
            case WNW =>
            case NNW =>
            case NNE =>
            case ENE =>
            case ESE =>
            case SSE =>
            case SSW =>
          }
        }
      }
    }

    function IsNeighbourTo(tileType: TileType, sides: seq<Side>): bool
      reads this, tileType
    {
      IsNeighbour(neighbourMaterials, tileType.neighbourMaterials, sides)
    }

    /** The candidates that may sit next to this tile type across `sides`, in the
        candidates' order. */
    function GetApplicableTileTypes(tileTypesToCheck: seq<TileType>, sides: seq<Side>): (r: seq<TileType>)
      reads this, set t | t in tileTypesToCheck
      ensures forall t | t in r :: t in tileTypesToCheck && IsNeighbourTo(t, sides)
      ensures forall t | t in tileTypesToCheck && IsNeighbourTo(t, sides) :: t in r
      ensures IsSubsequence(r, tileTypesToCheck)
      ensures forall t | t in tileTypesToCheck && IsNeighbourTo(t, sides) ::
                multiset(r)[t] == multiset(tileTypesToCheck)[t]
    {
      if tileTypesToCheck == [] then []
      else
        var first := tileTypesToCheck[0];
        assert tileTypesToCheck == [first] + tileTypesToCheck[1..];
        var rest := GetApplicableTileTypes(tileTypesToCheck[1..], sides);
        if IsNeighbourTo(first, sides) then [first] + rest else rest
    }
  }

  /** The compatibility facts of the tile type tests, on the materials alone. */
  lemma ScenarioMaterials(m1: Materials, m2: Materials, m3: Materials)
    requires MaterialAt(m1, WSW) == Some("GRASS") && MaterialAt(m1, WNW) == Some("GRASS")
    requires MaterialAt(m2, ESE) == Some("GRASS") && MaterialAt(m2, ENE) == Some("GRASS")
    requires MaterialAt(m3, ESE) == Some("GRASS") && MaterialAt(m3, ENE) == Some("DIRT")
    ensures IsNeighbour(m1, m2, [WSW, WNW]) && !IsNeighbour(m1, m3, [WSW, WNW])
    ensures IsNeighbour(m2, m1, [ESE, ENE]) && !IsNeighbour(m3, m1, [ESE, ENE])
  {
    assert !SideMatches(m1, m3, WNW);
    assert !SideMatches(m3, m1, ENE);
  }

  /** The scenario of the tile type tests: the two west slots of type 1 carry GRASS;
      type 2 carries GRASS on both east slots, type 3 GRASS and DIRT. */
  method NeighbourScenario()
  {
    var t1 := new TileType(1, "TILE_TYPE_1", "tileType1.png", ["TAG1", "TAG2", "TAG3"]);
    var t2 := new TileType(2, "TILE_TYPE_2", "tileType2.png", []);
    var t3 := new TileType(3, "TILE_TYPE_3", "tileType3.png", []);
    t1.SetNeighbourMaterial(Some(WSW), Some("GRASS"));
    t1.SetNeighbourMaterial(Some(WNW), Some("GRASS"));
    t2.SetNeighbourMaterial(Some(ESE), Some("GRASS"));
    t2.SetNeighbourMaterial(Some(ENE), Some("GRASS"));
    t3.SetNeighbourMaterial(Some(ESE), Some("GRASS"));
    t3.SetNeighbourMaterial(Some(ENE), Some("DIRT"));
    assert t1.GetNeighbourMaterial(WSW) == Some("GRASS") && t1.GetNeighbourMaterial(WNW) == Some("GRASS");
    assert t2.GetNeighbourMaterial(ESE) == Some("GRASS") && t2.GetNeighbourMaterial(ENE) == Some("GRASS");
    assert t3.GetNeighbourMaterial(ESE) == Some("GRASS") && t3.GetNeighbourMaterial(ENE) == Some("DIRT");
    ScenarioMaterials(t1.neighbourMaterials, t2.neighbourMaterials, t3.neighbourMaterials);
    assert t1.IsNeighbourTo(t2, [WSW, WNW]) && !t1.IsNeighbourTo(t3, [WSW, WNW]);
    assert t2.IsNeighbourTo(t1, [ESE, ENE]) && !t3.IsNeighbourTo(t1, [ESE, ENE]);
    var applicable := t1.GetApplicableTileTypes([t2, t3], [WSW, WNW]);
    assert t2 in applicable && t3 !in applicable;
  }
}
