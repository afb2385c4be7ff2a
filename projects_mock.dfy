/** The mock data of the projects: the cyclic choice of a stock photo for
    a building id, the image fallback, and the six-building fixture. */
module ProjectsMock {
  import opened Options
  import opened JsNumbers

  /** The six stock photos, in the order the ids cycle through them. */
  const PexelsBuildingIds: seq<nat> := [323775, 323780, 323772, 323776, 323777, 323778]

  const UrlPrefix := "https://images.pexels.com/photos/"
  const UrlMiddle := "/pexels-photo-"
  const UrlSuffix := ".jpeg?auto=compress&cs=tinysrgb&w=800&h=400&fit=crop"

  /** The array position `(buildingId - 1) % 6`, when it names an element;
      any other key (negative, fractional, NaN) reads `undefined`. */
  function PhotoIndex(buildingId: JsNumber): (k: Option<nat>)
    ensures k.Some? ==> k.value < |PexelsBuildingIds|
  {
    match buildingId
    case NaN => None
    case Num(v) =>
      var i := Rem(v - 1.0, |PexelsBuildingIds| as real);
      if i == i.Floor as real && 0.0 <= i < |PexelsBuildingIds| as real then Some(i.Floor as nat) else None
  }

  /** What the template literal writes for the chosen photo. */
  function PhotoText(buildingId: JsNumber): string
  {
    match PhotoIndex(buildingId)
    case Some(k) => NatToDecimal(PexelsBuildingIds[k])
    case None => "undefined"
  }

  /** The URL of a stock photo, given what is written for its id. */
  function PhotoUrl(photo: string): string
  {
    UrlPrefix + photo + UrlMiddle + photo + UrlSuffix
  }

  /** `getPexelsImage(buildingId)`. */
  function GetPexelsImage(buildingId: JsNumber): (r: string)
    ensures |r| > |UrlPrefix| + |UrlSuffix|
    ensures r[..|UrlPrefix|] == UrlPrefix && r[|r| - |UrlSuffix|..] == UrlSuffix
  {
    PhotoUrl(PhotoText(buildingId))
  }

  /** A whole id from 1 up picks photo `(id - 1) mod 6`. */
  lemma WholeIdPhoto(id: nat)
    requires id >= 1
    ensures PhotoIndex(Num(id as real)) == Some((id - 1) % 6)
  {
    RemWhole(id - 1, 6);
    assert id as real - 1.0 == (id - 1) as real;
  }

  /** Ids 1 to 6 take the six photos in the listed order. */
  lemma FirstSixInOrder(k: nat)
    requires k < 6
    ensures PhotoIndex(Num((k + 1) as real)) == Some(k)
    ensures PhotoText(Num((k + 1) as real)) == NatToDecimal(PexelsBuildingIds[k])
  {
    WholeIdPhoto(k + 1);
  }

  /** Ids 0 down to -4, and fractional ids below 1 in that range, read an
      element that does not exist. */
  lemma SmallIdsUndefined(v: real)
    requires -5.0 < v < 1.0
    ensures PhotoIndex(Num(v)) == None
    ensures PhotoText(Num(v)) == "undefined"
  {
    assert Trunc((v - 1.0) / 6.0) == 0;
  }

  /** From id 1 on, the photo repeats every six ids. */
  lemma PexelsPeriodic(v: real)
    requires v >= 1.0
    ensures GetPexelsImage(Num(v + 6.0)) == GetPexelsImage(Num(v))
  {
    RemPeriodic(v - 1.0, 6.0);
    assert v + 6.0 - 1.0 == (v - 1.0) + 6.0;
  }

  /** The URL names the photo in both places, so it determines the photo. */
  lemma PhotoUrlInjective(p: string, q: string)
    requires PhotoUrl(p) == PhotoUrl(q)
    ensures p == q
  {
    var u := PhotoUrl(p);
    assert |u| == |UrlPrefix| + 2 * |p| + |UrlMiddle| + |UrlSuffix|;
    assert |p| == |q|;
    assert u[|UrlPrefix|..|UrlPrefix| + |p|] == p;
    assert PhotoUrl(q)[|UrlPrefix|..|UrlPrefix| + |q|] == q;
  }

  /** Two whole ids from 1 up get the same image exactly when they are
      congruent modulo 6; in particular ids 1 to 6 get six different
      images. */
  lemma SameImageIff(a: nat, b: nat)
    requires a >= 1 && b >= 1
    ensures GetPexelsImage(Num(a as real)) == GetPexelsImage(Num(b as real)) <==> (a - 1) % 6 == (b - 1) % 6
  {
    WholeIdPhoto(a);
    WholeIdPhoto(b);
    if GetPexelsImage(Num(a as real)) == GetPexelsImage(Num(b as real)) {
      PhotoUrlInjective(PhotoText(Num(a as real)), PhotoText(Num(b as real)));
      NatToDecimalInjective(PexelsBuildingIds[(a - 1) % 6], PexelsBuildingIds[(b - 1) % 6]);
    }
  }

  /** A project of the fixture. */
  datatype MockBuilding = MockBuilding(
    id: nat,
    name: string,
    location: string,
    totalValue: string,
    tokensAvailable: string,
    progress: nat,
    milestonesCompleted: nat,
    totalMilestones: nat,
    featured: bool,
    category: string,
    image: Option<string>)

  /** `getProjectImage`: the project's own image when it has a non-empty
      one, otherwise its stock photo. */
  function GetProjectImage(project: MockBuilding): (r: string)
    ensures project.image.Some? && project.image.value != "" ==> r == project.image.value
    ensures !(project.image.Some? && project.image.value != "") ==> r == GetPexelsImage(Num(project.id as real))
  {
    if project.image.Some? && project.image.value != "" then project.image.value
    else GetPexelsImage(Num(project.id as real))
  }

  /** The six projects of the fixture. */
  const Buildings: seq<MockBuilding> := [
    MockBuilding(1, "Marina Tower", "Florianópolis, Brazil", "25M", "8.5M", 45, 3, 8, true,
                 "Residential", Some("/assets/predio-residencial-3-andares.jpg")),
    MockBuilding(2, "Coastal Residential Complex", "Florianópolis, Brazil", "18M", "12M", 28, 2, 7, false,
                 "Residential", Some("/assets/predio-fachada.jpg")),
    MockBuilding(3, "Business Plaza", "Buenos Aires, Argentina", "52M", "15M", 62, 5, 8, true,
                 "Commercial", Some("/assets/maquete eletrônica_prédio_low.jpg")),
    MockBuilding(4, "Modern Tower", "Tokyo, Japan", "85M", "22M", 15, 1, 10, false,
                 "Residential", Some("/assets/Maquete-Eletrônica-e-projeto-Miriarq3d-Edificio-fachada.jpg")),
    MockBuilding(5, "Beachfront Development", "Balneário Camboriú, Brazil", "31M", "18M", 78, 6, 8, false,
                 "Residential",
                 Some("/assets/yantram-studio-modern-3d-exterior-hotel-view-ideas-beach-side-architectural-services.jpg")),
    MockBuilding(6, "Historic District Renovation", "Barcelona, Spain", "120M", "45M", 35, 3, 9, true,
                 "Commercial", Some("/assets/ideia.jpg"))
  ]

  /** The fixture's ids are 1 to 6 in order (so distinct and ascending),
      no project has completed more milestones than it plans, each is
      Residential or Commercial, and each shows its own image. */
  lemma FixtureWellFormed()
    ensures |Buildings| == 6
    ensures forall k :: 0 <= k < |Buildings| ==> Buildings[k].id == k + 1
    ensures forall j, k :: 0 <= j < k < |Buildings| ==> Buildings[j].id < Buildings[k].id
    ensures forall k :: 0 <= k < |Buildings| ==>
              Buildings[k].milestonesCompleted <= Buildings[k].totalMilestones &&
              (Buildings[k].category == "Residential" || Buildings[k].category == "Commercial") &&
              GetProjectImage(Buildings[k]) == Buildings[k].image.value
  {
    forall k | 0 <= k < |Buildings|
      ensures Buildings[k].id == k + 1
    {
    }
  }
}
