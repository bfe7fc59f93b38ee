/**
 * The build as the tool runs it: mutable nodes, found by code in one map a level, each pushed into the node of its parent.
 * The nodes show, at every turn of the loop, exactly the tree that the specification has built from the codes placed so
 * far, and a failure is the specified one. The ghost sets hold the nodes made so far, by level.
 */
module RegionBuilder {
  import opened Wrappers
  import opened RegionCodes
  import opened RegionTree
  import opened RegionTreeProofs

  class DistrictSeed {
    const code: string
    const name: string
    var villages: seq<Village>

    constructor (code: string, name: string)
      ensures this.code == code && this.name == name && villages == []
    {
      this.code, this.name, villages := code, name, [];
    }
  }

  class CitySeed {
    const code: string
    const name: string
    const kind: CityType
    var districts: seq<DistrictSeed>

    constructor (code: string, name: string, kind: CityType)
      ensures this.code == code && this.name == name && this.kind == kind && districts == []
    {
      this.code, this.name, this.kind, districts := code, name, kind, [];
    }
  }

  class ProvinceSeed {
    const code: string
    const name: string
    var cities: seq<CitySeed>

    constructor (code: string, name: string)
      ensures this.code == code && this.name == name && cities == []
    {
      this.code, this.name, cities := code, name, [];
    }
  }

  // The tree that the nodes show

  ghost predicate ShowsDistrict(d: DistrictSeed, v: District)
    reads d
  {
    d.code == v.code && d.name == v.name && d.villages == v.villages
  }

  ghost predicate ShowsCity(c: CitySeed, v: City, ds: set<DistrictSeed>)
    reads c, ds
  {
    && c.code == v.code && c.name == v.name && c.kind == v.kind
    && |c.districts| == |v.districts|
    && forall k | 0 <= k < |c.districts| :: c.districts[k] in ds && ShowsDistrict(c.districts[k], v.districts[k])
  }

  ghost predicate ShowsProvince(p: ProvinceSeed, v: Province, cs: set<CitySeed>, ds: set<DistrictSeed>)
    reads p, cs, ds
  {
    && p.code == v.code && p.name == v.name
    && |p.cities| == |v.cities|
    && forall j | 0 <= j < |p.cities| :: p.cities[j] in cs && ShowsCity(p.cities[j], v.cities[j], ds)
  }

  ghost predicate AtLevel(keys: set<string>, placed: seq<string>, level: nat) {
    forall c :: c in keys <==> c in placed && LevelOf(c) == level
  }

  lemma {:induction false} LevelsGrow(placed: seq<string>, code: string, level: nat)
    ensures HasLevel(placed + [code], level) <==> HasLevel(placed, level) || LevelOf(code) == level
  {
    if c :| c in placed && LevelOf(c) == level {
      assert c in placed + [code];
    }
    assert code in placed + [code];
  }

  lemma {:induction false} KeysGrow(keys: set<string>, placed: seq<string>, code: string, level: nat)
    requires AtLevel(keys, placed, level)
    ensures AtLevel(if LevelOf(code) == level then keys + {code} else keys, placed + [code], level)
  {
  }

  ghost predicate AnyVillage(ds: set<DistrictSeed>)
    reads ds
  {
    exists d :: d in ds && d.villages != []
  }

  class Builder {
    var provinces: seq<ProvinceSeed>
    var provinceByCode: map<string, ProvinceSeed>
    var cityByCode: map<string, CitySeed>
    var districtByCode: map<string, DistrictSeed>
    /** The nodes made so far, by level. */
    ghost var ps: set<ProvinceSeed>
    ghost var cs: set<CitySeed>
    ghost var ds: set<DistrictSeed>
    ghost var Repr: set<object>

    constructor ()
      ensures Stands([], []) && Repr == {}
    {
      provinces, provinceByCode, cityByCode, districtByCode := [], map[], map[], map[];
      ps, cs, ds, Repr := {}, {}, {}, {};
    }

    /** Each map finds exactly the nodes made, each under its own code. */
    ghost predicate Finds()
      reads this
    {
      FindsProvinces() && FindsCities() && FindsDistricts()
    }

    ghost predicate FindsProvinces()
      reads `provinceByCode, `ps
    {
      && (forall c | c in provinceByCode :: provinceByCode[c] in ps && provinceByCode[c].code == c)
      && (forall p | p in ps :: p.code in provinceByCode && provinceByCode[p.code] == p)
    }

    ghost predicate FindsCities()
      reads `cityByCode, `cs
    {
      && (forall c | c in cityByCode :: cityByCode[c] in cs && cityByCode[c].code == c)
      && (forall c | c in cs :: c.code in cityByCode && cityByCode[c.code] == c)
    }

    ghost predicate FindsDistricts()
      reads `districtByCode, `ds
    {
      && (forall c | c in districtByCode :: districtByCode[c] in ds && districtByCode[c].code == c)
      && (forall d | d in ds :: d.code in districtByCode && districtByCode[d.code] == d)
    }

    ghost predicate Owns()
      reads `ps, `cs, `ds, `Repr
    {
      (forall p | p in ps :: p in Repr) && (forall c | c in cs :: c in Repr) && forall d | d in ds :: d in Repr
    }

    /** Each map has a node for every code placed at its level, and no other. */
    ghost predicate Covers(placed: seq<string>)
      reads `provinces, `provinceByCode, `cityByCode, `districtByCode
    {
      && AtLevel(provinceByCode.Keys, placed, 0)
      && AtLevel(cityByCode.Keys, placed, 1)
      && AtLevel(districtByCode.Keys, placed, 2)
      && (provinces == [] <==> provinceByCode == map[])
    }

    /** The nodes show the forest. */
    ghost predicate ShowsForest(forest: seq<Province>)
      reads this, ps, cs, ds
    {
      && |provinces| == |forest|
      && forall i | 0 <= i < |provinces| :: provinces[i] in ps && ShowsProvince(provinces[i], forest[i], cs, ds)
    }

    /** There is a village among the codes placed exactly when some district node has one. */
    ghost predicate Peopled(placed: seq<string>)
      reads `ds, ds
    {
      HasLevel(placed, 3) <==> AnyVillage(ds)
    }

    ghost predicate Stands(forest: seq<Province>, placed: seq<string>)
      reads this, ps, cs, ds
    {
      Finds() && Owns() && Covers(placed) && ShowsForest(forest) && Peopled(placed)
    }

    twostate lemma ProvinceIsFound(new province: ProvinceSeed)
      requires old(FindsProvinces()) && province.code !in old(provinceByCode)
      requires provinceByCode == old(provinceByCode)[province.code := province] && ps == old(ps) + {province}
      ensures FindsProvinces()
    {
    }

    twostate lemma CityIsFound(new city: CitySeed)
      requires old(FindsCities()) && city.code !in old(cityByCode)
      requires cityByCode == old(cityByCode)[city.code := city] && cs == old(cs) + {city}
      ensures FindsCities()
    {
    }

    twostate lemma DistrictIsFound(new district: DistrictSeed)
      requires old(FindsDistricts()) && district.code !in old(districtByCode)
      requires districtByCode == old(districtByCode)[district.code := district] && ds == old(ds) + {district}
      ensures FindsDistricts()
    {
    }

    twostate lemma ForestStaysShown(forest: seq<Province>)
      requires old(ShowsForest(forest)) && provinces == old(provinces) && ps == old(ps)
      requires old(cs) <= cs && old(ds) <= ds
      requires (forall p | p in ps :: unchanged(p)) && (forall c | c in old(cs) :: unchanged(c))
      requires forall d | d in old(ds) :: unchanged(d)
      ensures ShowsForest(forest)
    {
      forall i | 0 <= i < |provinces|
        ensures ShowsProvince(provinces[i], forest[i], cs, ds)
      {
        assert old(ShowsProvince(provinces[i], forest[i], cs, ds));
      }
    }

    lemma {:induction false} AllKeysGrow(placed: seq<string>, code: string)
      requires Covers(placed)
      ensures AtLevel(if LevelOf(code) == 0 then provinceByCode.Keys + {code} else provinceByCode.Keys, placed + [code], 0)
      ensures AtLevel(if LevelOf(code) == 1 then cityByCode.Keys + {code} else cityByCode.Keys, placed + [code], 1)
      ensures AtLevel(if LevelOf(code) == 2 then districtByCode.Keys + {code} else districtByCode.Keys, placed + [code], 2)
    {
      KeysGrow(provinceByCode.Keys, placed, code, 0);
      KeysGrow(cityByCode.Keys, placed, code, 1);
      KeysGrow(districtByCode.Keys, placed, code, 2);
    }

    method RegisterProvince(province: ProvinceSeed, ghost forest: seq<Province>, ghost placed: seq<string>)
      requires Finds() && Owns() && Covers(placed) && Peopled(placed)
      requires province.code !in placed && LevelOf(province.code) == 0
      modifies `provinces, `provinceByCode, `ps, `Repr
      ensures Finds() && Owns() && Covers(placed + [province.code]) && Peopled(placed + [province.code])
      ensures provinces == old(provinces) + [province]
      ensures ps == old(ps) + {province} && Repr == old(Repr) + {province}
    {
      LevelsGrow(placed, province.code, 3);
      AllKeysGrow(placed, province.code);
      provinceByCode := provinceByCode[province.code := province];
      provinces := provinces + [province];
      ps, Repr := ps + {province}, Repr + {province};
      ProvinceIsFound(province);
    }

    method AddProvince(code: string, name: string, ghost forest: seq<Province>, ghost placed: seq<string>)
      requires Stands(forest, placed) && code !in placed && LevelOf(code) == 0
      modifies `provinces, `provinceByCode, `ps, `Repr
      ensures Stands(forest + [Province(code, name, [])], placed + [code])
      ensures forall o | o in Repr :: o in old(Repr) || fresh(o)
    {
      var province := new ProvinceSeed(code, name);
      RegisterProvince(province, forest, placed);
      ProvinceIsShown(province, forest);
    }

    twostate lemma ProvinceIsShown(new province: ProvinceSeed, forest: seq<Province>)
      requires old(ShowsForest(forest))
      requires provinces == old(provinces) + [province] && ps == old(ps) + {province} && cs == old(cs) && ds == old(ds)
      requires (forall p | p in old(ps) :: unchanged(p)) && (forall c | c in cs :: unchanged(c))
      requires (forall d | d in ds :: unchanged(d)) && province.cities == []
      ensures ShowsForest(forest + [Province(province.code, province.name, [])])
    {
      forall i | 0 <= i < |forest|
        ensures ShowsProvince(provinces[i], forest[i], cs, ds)
      {
        assert old(ShowsProvince(provinces[i], forest[i], cs, ds));
      }
    }

    method RegisterCity(city: CitySeed, ghost forest: seq<Province>, ghost placed: seq<string>)
      requires Stands(forest, placed) && city.code !in placed && LevelOf(city.code) == 1
      modifies `cityByCode, `cs, `Repr
      ensures Stands(forest, placed + [city.code])
      ensures cs == old(cs) + {city} && Repr == old(Repr) + {city}
    {
      LevelsGrow(placed, city.code, 3);
      AllKeysGrow(placed, city.code);
      cityByCode := cityByCode[city.code := city];
      cs, Repr := cs + {city}, Repr + {city};
      CityIsFound(city);
      ForestStaysShown(forest);
    }

    method PushCity(parent: ProvinceSeed, code: string, name: string, kind: CityType, ghost forest: seq<Province>,
                    ghost placed: seq<string>)
      requires Stands(forest, placed) && code !in placed && LevelOf(code) == 1
      requires ParentOf(code) in provinceByCode && provinceByCode[ParentOf(code)] == parent
      modifies `cityByCode, `cs, `Repr, parent
      ensures Stands(AddCity(forest, ParentOf(code), City(code, name, kind, [])), placed + [code])
      ensures forall o | o in Repr :: o in old(Repr) || fresh(o)
    {
      var city := new CitySeed(code, name, kind);
      RegisterCity(city, forest, placed);
      AttachCity(parent, city, forest, placed + [code]);
    }

    method AttachCity(parent: ProvinceSeed, city: CitySeed, ghost forest: seq<Province>, ghost placed: seq<string>)
      requires Stands(forest, placed)
      requires parent.code in provinceByCode && provinceByCode[parent.code] == parent
      requires city in cs && city.districts == []
      modifies parent
      ensures Stands(AddCity(forest, parent.code, City(city.code, city.name, city.kind, [])), placed)
    {
      parent.cities := parent.cities + [city];
      ghost var grown := AddCity(forest, parent.code, City(city.code, city.name, city.kind, []));
      forall i | 0 <= i < |provinces|
        ensures ShowsProvince(provinces[i], grown[i], cs, ds)
      {
        var p := provinces[i];
        assert old(ShowsProvince(p, forest[i], cs, ds));
        assert p == parent <==> p.code == parent.code;
      }
    }

    method RegisterDistrict(district: DistrictSeed, ghost forest: seq<Province>, ghost placed: seq<string>)
      requires Stands(forest, placed) && district.code !in placed && LevelOf(district.code) == 2 && district.villages == []
      modifies `districtByCode, `ds, `Repr
      ensures Stands(forest, placed + [district.code])
      ensures ds == old(ds) + {district} && Repr == old(Repr) + {district}
    {
      LevelsGrow(placed, district.code, 3);
      AllKeysGrow(placed, district.code);
      districtByCode := districtByCode[district.code := district];
      ds, Repr := ds + {district}, Repr + {district};
      DistrictIsFound(district);
      ForestStaysShown(forest);
    }

    method PushDistrict(parent: CitySeed, code: string, name: string, ghost forest: seq<Province>,
                        ghost placed: seq<string>)
      requires Stands(forest, placed) && code !in placed && LevelOf(code) == 2
      requires ParentOf(code) in cityByCode && cityByCode[ParentOf(code)] == parent
      modifies `districtByCode, `ds, `Repr, parent
      ensures Stands(AddDistrict(forest, ParentOf(code), District(code, name, [])), placed + [code])
      ensures forall o | o in Repr :: o in old(Repr) || fresh(o)
    {
      var district := new DistrictSeed(code, name);
      RegisterDistrict(district, forest, placed);
      AttachDistrict(parent, district, forest, placed + [code]);
    }

    method AttachDistrict(parent: CitySeed, district: DistrictSeed, ghost forest: seq<Province>,
                          ghost placed: seq<string>)
      requires Stands(forest, placed)
      requires parent.code in cityByCode && cityByCode[parent.code] == parent
      requires district in ds && district.villages == []
      modifies parent
      ensures Stands(AddDistrict(forest, parent.code, District(district.code, district.name, [])), placed)
    {
      parent.districts := parent.districts + [district];
      ghost var grown := AddDistrict(forest, parent.code, District(district.code, district.name, []));
      forall i | 0 <= i < |provinces|
        ensures ShowsProvince(provinces[i], grown[i], cs, ds)
      {
        var p := provinces[i];
        forall j | 0 <= j < |p.cities|
          ensures p.cities[j] in cs && ShowsCity(p.cities[j], grown[i].cities[j], ds)
        {
          assert old(ShowsCity(p.cities[j], forest[i].cities[j], ds));
          assert p.cities[j] == parent <==> p.cities[j].code == parent.code;
        }
      }
    }

    method PushVillage(parent: DistrictSeed, village: Village, ghost forest: seq<Province>, ghost placed: seq<string>)
      requires Stands(forest, placed) && village.code !in placed && LevelOf(village.code) == 3
      requires ParentOf(village.code) in districtByCode && districtByCode[ParentOf(village.code)] == parent
      modifies parent
      ensures Stands(AddVillage(forest, ParentOf(village.code), village), placed + [village.code])
    {
      LevelsGrow(placed, village.code, 3);
      AttachVillage(parent, village, forest);
      assert districtByCode[parent.code].villages != [];
    }

    method AttachVillage(parent: DistrictSeed, village: Village, ghost forest: seq<Province>)
      requires ShowsForest(forest) && Finds()
      requires parent.code in districtByCode && districtByCode[parent.code] == parent
      modifies parent
      ensures ShowsForest(AddVillage(forest, parent.code, village))
      ensures parent.villages == old(parent.villages) + [village]
    {
      parent.villages := parent.villages + [village];
      ghost var grown := AddVillage(forest, parent.code, village);
      forall i | 0 <= i < |provinces|
        ensures ShowsProvince(provinces[i], grown[i], cs, ds)
      {
        var p := provinces[i];
        forall j | 0 <= j < |p.cities|
          ensures p.cities[j] in cs && ShowsCity(p.cities[j], grown[i].cities[j], ds)
        {
          assert old(ShowsCity(p.cities[j], forest[i].cities[j], ds));
          forall k | 0 <= k < |p.cities[j].districts|
            ensures ShowsDistrict(p.cities[j].districts[k], grown[i].cities[j].districts[k])
          {
            var d := p.cities[j].districts[k];
            assert d == parent <==> d.code == parent.code;
          }
        }
      }
    }

    /** One turn of the loop: the node is made, found a parent and pushed, or the run fails. */
    method PlaceCode(code: string, name: string, postal: map<string, string>, ghost forest: seq<Province>,
                     ghost placed: seq<string>)
      returns (failed: Option<RegionError>)
      requires Stands(forest, placed) && code !in placed
      modifies this, Repr
      ensures forall o | o in Repr :: o in old(Repr) || fresh(o)
      ensures failed.Some? ==> Place(forest, placed, code, name, postal) == Failure(failed.value)
      ensures failed.None? ==> Place(forest, placed, code, name, postal).Success?
      ensures failed.None? ==> Stands(Place(forest, placed, code, name, postal).value, placed + [code])
    {
      if LevelOf(code) > 0 {
        ParentIsOneUp(code);
      }
      match LevelOf(code) {
      case 0 =>
        AddProvince(code, name, forest, placed);
      case 1 =>
        if ParentOf(code) !in provinceByCode {
          return Some(ORPHAN(code));
        }
        var kind := CityTypeOf(name);
        if kind.None? {
          return Some(NO_DESIGNATION(code));
        }
        PushCity(provinceByCode[ParentOf(code)], code, name, kind.value, forest, placed);
      case 2 =>
        if ParentOf(code) !in cityByCode {
          return Some(ORPHAN(code));
        }
        PushDistrict(cityByCode[ParentOf(code)], code, name, forest, placed);
      case 3 =>
        if ParentOf(code) !in districtByCode {
          return Some(ORPHAN(code));
        }
        PushVillage(districtByCode[ParentOf(code)], Village(code, name, PostalFor(code, postal)), forest, placed);
      case _ =>
        return Some(UNEXPECTED_LEVEL(code));
      }
      return None;
    }

    /** `PlaceCode` for the next of the sorted codes. */
    method PlaceNext(sorted: seq<string>, i: nat, names: map<string, string>, postal: map<string, string>,
                     ghost forest: seq<Province>)
      returns (failed: Option<RegionError>, ghost grown: seq<Province>)
      requires ReadyToBuild(sorted, names) && i < |sorted|
      requires Build(sorted[..i], names, postal) == Success(forest) && Stands(forest, sorted[..i])
      modifies this, Repr
      ensures forall o | o in Repr :: o in old(Repr) || fresh(o)
      ensures failed.Some? ==> Build(sorted, names, postal) == Failure(failed.value)
      ensures failed.None? ==> Build(sorted[..i + 1], names, postal) == Success(grown) && Stands(grown, sorted[..i + 1])
    {
      BuildOneMore(sorted, i, names, postal);
      failed := PlaceCode(sorted[i], names[sorted[i]], postal, forest, sorted[..i]);
      if failed.Some? {
        FailureIsFinal(sorted, i + 1, names, postal);
        grown := forest;
      } else {
        grown := Build(sorted[..i + 1], names, postal).value;
      }
    }

    /** The counts that must not be zero before the tree is written. */
    method IsWhole(ghost forest: seq<Province>, ghost placed: seq<string>) returns (whole: bool)
      requires Stands(forest, placed)
      ensures whole <==> IsComplete(placed)
    {
      LevelsAreMaps(this, placed);
      var peopled := exists c | c in districtByCode :: districtByCode[c].villages != [];
      whole := provinces != [] && |cityByCode| > 0 && |districtByCode| > 0 && peopled;
    }
  }

  /** The loop over the sorted codes builds exactly the specified tree, or fails exactly where the specification does. */
  method BuildTree(sorted: seq<string>, names: map<string, string>, postal: map<string, string>)
    returns (failed: Option<RegionError>, builder: Builder, ghost forest: seq<Province>)
    requires ReadyToBuild(sorted, names)
    ensures fresh(builder)
    ensures failed.Some? ==> Build(sorted, names, postal) == Failure(failed.value)
    ensures failed.None? ==> Build(sorted, names, postal) == Success(forest) && builder.Stands(forest, sorted)
  {
    builder := new Builder();
    forest := [];
    for i := 0 to |sorted|
      invariant fresh(builder) && forall o | o in builder.Repr :: fresh(o)
      invariant Build(sorted[..i], names, postal) == Success(forest)
      invariant builder.Stands(forest, sorted[..i])
    {
      ghost var grown;
      failed, grown := builder.PlaceNext(sorted, i, names, postal, forest);
      if failed.Some? {
        return;
      }
      forest := grown;
    }
    TakeAll(sorted);
    failed := None;
  }

  lemma {:induction false} BuildOneMore(codes: seq<string>, i: nat, names: map<string, string>,
                                        postal: map<string, string>)
    requires ReadyToBuild(codes, names) && i < |codes| && Build(codes[..i], names, postal).Success?
    ensures codes[i] !in codes[..i]
    ensures codes[..i + 1] == codes[..i] + [codes[i]]
    ensures Build(codes[..i + 1], names, postal)
         == Place(Build(codes[..i], names, postal).value, codes[..i], codes[i], names[codes[i]], postal)
  {
    assert codes[..i + 1][..i] == codes[..i];
    SortedIsDistinct(codes);
  }

  lemma {:induction false} FailureIsFinal(codes: seq<string>, n: nat, names: map<string, string>,
                                          postal: map<string, string>)
    requires n <= |codes| && (forall c | c in codes :: c in names) && Build(codes[..n], names, postal).Failure?
    ensures Build(codes, names, postal) == Build(codes[..n], names, postal)
    decreases |codes|
  {
    if n == |codes| {
      assert codes[..n] == codes;
    } else {
      assert codes[..|codes| - 1][..n] == codes[..n];
      FailureIsFinal(codes[..|codes| - 1], n, names, postal);
    }
  }

  /** The whole tool: both tables read, the tree built, and an empty or partial dataset refused. */
  method ImportRegions(entries: seq<Entry>, postalEntries: seq<Entry>)
    returns (failed: Option<RegionError>, builder: Builder)
    ensures failed.Some? ==> Import(entries, postalEntries) == Failure(failed.value)
    ensures failed.None? ==> Import(entries, postalEntries).Success?
    ensures failed.None? ==> builder.ShowsForest(Import(entries, postalEntries).value)
  {
    builder := new Builder();
    var read := ReadRegions(entries);
    if read.Failure? {
      return Some(read.error), builder;
    }
    var postal := ReadPostal(postalEntries);
    var sorted := SortCodes(read.value.codes);
    ReadIsReady(entries);
    ghost var forest;
    failed, builder, forest := BuildTree(sorted, read.value.names, postal);
    if failed.Some? {
      return;
    }
    var complete := builder.IsWhole(forest, sorted);
    if !complete {
      failed := Some(EMPTY_OR_PARTIAL);
    }
  }

  lemma {:induction false} LevelsAreMaps(builder: Builder, placed: seq<string>)
    requires builder.Covers(placed)
    ensures |builder.cityByCode| == 0 <==> !HasLevel(placed, 1)
    ensures |builder.districtByCode| == 0 <==> !HasLevel(placed, 2)
    ensures |builder.provinceByCode| == 0 <==> !HasLevel(placed, 0)
  {
    EmptyMap(builder.cityByCode);
    EmptyMap(builder.districtByCode);
    EmptyMap(builder.provinceByCode);
  }

  lemma {:induction false} EmptyMap<T>(m: map<string, T>)
    ensures |m| == 0 <==> forall c :: c !in m
  {
    assert |m| == |m.Keys|;
    if |m| > 0 {
      var c :| c in m.Keys;
    } else {
      assert m.Keys == {};
    }
  }
}
