/** The home page: it loads the buildings like the projects page, only
    logging a failed load, and shows the first three featured ones. */
module HomePage {
  import opened JsValues
  import opened Seqs
  import opened BuildingRegistry

  /** How many featured projects the home page shows. */
  const FeaturedLimit := 3

  function IsFeatured(): Building -> bool
  {
    (b: Building) => b.featured
  }

  /** `buildings.filter((b) => b.featured).slice(0, 3)`. */
  function FeaturedProjects(bs: seq<Building>): (r: seq<Building>)
    ensures |r| <= FeaturedLimit
    ensures forall b :: b in r ==> b in bs && b.featured
  {
    FilterMembers(IsFeatured(), bs);
    Take(Filter(IsFeatured(), bs), FeaturedLimit)
  }

  /** The featured selection holds the first `min(3, k)` featured buildings
      in input order, `k` being the number of featured buildings; each of
      them is featured and comes from the input. */
  lemma FeaturedProjectsSpec(bs: seq<Building>)
    ensures var r := FeaturedProjects(bs);
      var k := Count(IsFeatured(), bs);
      |r| == (if k < FeaturedLimit then k else FeaturedLimit) &&
      r <= Filter(IsFeatured(), bs) &&
      forall b :: b in r ==> b in bs && b.featured
  {
    var featured := Filter(IsFeatured(), bs);
    FilterCount(IsFeatured(), bs);
    FilterMembers(IsFeatured(), bs);
    var r := FeaturedProjects(bs);
    forall b | b in r
      ensures b in featured
    {
      var i :| 0 <= i < |r| && r[i] == b;
      assert featured[i] == b;
    }
  }

  /** With at least three featured buildings exactly three are shown, and
      they are the first three of them. */
  lemma ThreeFeaturedShown(bs: seq<Building>)
    requires Count(IsFeatured(), bs) >= FeaturedLimit
    ensures |Filter(IsFeatured(), bs)| == Count(IsFeatured(), bs)
    ensures FeaturedProjects(bs) == Filter(IsFeatured(), bs)[..FeaturedLimit]
  {
    FilterCount(IsFeatured(), bs);
  }

  /** The page's state: the `useState` variables. */
  class Home {
    var buildings: seq<Building>
    var isLoading: bool

    constructor()
      ensures buildings == [] && isLoading
    {
      buildings := [];
      isLoading := true;
    }

    /** The cards of the featured section. */
    function Featured(): seq<Building>
      reads this
    {
      FeaturedProjects(buildings)
    }

    /** `fetchBlockchainData`: on success the list is replaced (emptied by
        the count guard); an error is only logged, so the list is kept;
        either way loading ends. Returns the ids requested. */
    method FetchBlockchainData(total: Call<JsValue>, getBuilding: string -> Call<Output>)
      returns (requested: seq<string>)
      modifies this
      ensures requested == RequestedIds(total)
      ensures !isLoading
      ensures FetchBuildings(total, getBuilding).Loaded? ==>
                buildings == FetchBuildings(total, getBuilding).buildings
      ensures FetchBuildings(total, getBuilding).Failed? ==> buildings == old(buildings)
    {
      isLoading := true;
      var fetched;
      fetched, requested := Fetch(total, getBuilding);
      if fetched.Loaded? {
        buildings := fetched.buildings;
      }
      isLoading := false;
    }
  }
}
