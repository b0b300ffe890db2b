/** The pure handlers of client/src/components/geographic-filters.tsx: the
    cascade area, then region, then provinces, where changing a level clears
    the levels below it, and the option lists offered at each level. */
module GeographicFilters {
  import opened Schema
  import opened Storage
  import Lists

  /** `{ area, regione, provincia }`: an empty text is "nothing chosen". */
  datatype GeoFilters = GeoFilters(area: string, regione: string, provincia: seq<string>)

  /** `handleAreaChange`: a new area forgets the region and the provinces. */
  function AreaChange(f: GeoFilters, area: string): (r: GeoFilters)
    ensures r.area == area && r.regione == [] && r.provincia == []
  {
    GeoFilters(area, [], [])
  }

  /** `handleRegioneChange`: the area stays, the provinces are forgotten. */
  function RegioneChange(f: GeoFilters, regione: string): (r: GeoFilters)
    ensures r.area == f.area && r.regione == regione && r.provincia == []
  {
    f.(regione := regione, provincia := [])
  }

  /** `handleProvinciaToggle`: ticking appends the province, unticking removes
      every equal entry; area and region stay. */
  function ProvinciaToggle(f: GeoFilters, provincia: string, checked: bool): (r: GeoFilters)
    ensures r.area == f.area && r.regione == f.regione
    ensures checked ==> r.provincia == f.provincia + [provincia]
    ensures !checked ==> (provincia !in r.provincia &&
      forall p :: p != provincia ==> multiset(r.provincia)[p] == multiset(f.provincia)[p])
  {
    f.(provincia := if checked then f.provincia + [provincia] else Lists.Without(f.provincia, provincia))
  }

  /** `availableRegions`: the regions of the chosen area, or none when no area
      is chosen, the data has not arrived, or the area is unknown. */
  function AvailableRegions(f: GeoFilters, geo: Option<GeoData>): (r: seq<string>)
    ensures f.area == [] || geo.None? || f.area !in geo.value.regions ==> r == []
    ensures f.area != [] && geo.Some? && f.area in geo.value.regions ==> r == geo.value.regions[f.area]
  {
    if f.area != [] && geo.Some? && f.area in geo.value.regions then geo.value.regions[f.area] else []
  }

  /** `availableProvinces`: the provinces of the chosen region, or none. */
  function AvailableProvinces(f: GeoFilters, geo: Option<GeoData>): (r: seq<string>)
    ensures f.regione == [] || geo.None? || f.regione !in geo.value.provinces ==> r == []
    ensures f.regione != [] && geo.Some? && f.regione in geo.value.provinces ==> r == geo.value.provinces[f.regione]
  {
    if f.regione != [] && geo.Some? && f.regione in geo.value.provinces then geo.value.provinces[f.regione] else []
  }

  /** Choosing an area leaves no province offered and none chosen. */
  lemma AreaChangeClearsBelow(f: GeoFilters, area: string, geo: Option<GeoData>)
    ensures AvailableProvinces(AreaChange(f, area), geo) == []
    ensures AreaChange(f, area).provincia == []
  {
  }

  /** Ticking a province and unticking it again restores the filters when it
      was not chosen before. */
  lemma ProvinciaToggleOnOff(f: GeoFilters, provincia: string)
    requires provincia !in f.provincia
    ensures ProvinciaToggle(ProvinciaToggle(f, provincia, true), provincia, false) == f
  {
    Lists.AppendThenWithout(f.provincia, provincia);
    Lists.WithoutAbsent(f.provincia, provincia);
  }

  /** With the data the store computes, every offered region belongs to a
      school of the chosen area, and every offered province to a school of the
      chosen region that has an area: nothing is offered that would list no school. */
  lemma OfferedOptionsHaveSchools(f: GeoFilters, g: GeoData, xs: seq<School>)
    requires g.regions.Keys == AreaSet(xs)
    requires forall a | a in g.regions :: forall r :: r in g.regions[a] <==> r in RegionSet(xs, a)
    requires g.provinces.Keys == RegionKeys(xs)
    requires forall r | r in g.provinces :: forall p :: p in g.provinces[r] <==> p in ProvinceSet(xs, r)
    ensures forall r :: r in AvailableRegions(f, Some(g)) ==>
      exists s :: s in xs && s.fields.areaGeografica == Some(f.area) && s.fields.regione == Some(r)
    ensures forall p :: p in AvailableProvinces(f, Some(g)) ==>
      exists s :: s in xs && s.fields.regione == Some(f.regione) && s.fields.provincia == Some(p)
  {
    forall r | r in AvailableRegions(f, Some(g))
      ensures exists s :: s in xs && s.fields.areaGeografica == Some(f.area) && s.fields.regione == Some(r)
    {
      GeoSetsMembers(xs, f.area, r, []);
    }
    forall p | p in AvailableProvinces(f, Some(g))
      ensures exists s :: s in xs && s.fields.regione == Some(f.regione) && s.fields.provincia == Some(p)
    {
      GeoSetsMembers(xs, [], f.regione, p);
    }
  }
}
