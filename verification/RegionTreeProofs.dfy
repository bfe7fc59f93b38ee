/** The one-pass build of the region tree is right. */
module RegionTreeProofs {
  // The one-pass build is right because a parent sorts before its children: the tree's preorder is
  // the sorted list of codes, every region hangs under its own prefix, and the build fails exactly
  // where a prefix is missing.

  import opened Wrappers
  import opened RegionCodes
  import opened RegionTree
  import Text

  // Preorder

  function VillageCodes(villages: seq<Village>): seq<string> {
    if villages == [] then [] else VillageCodes(villages[..|villages| - 1]) + [villages[|villages| - 1].code]
  }

  function DistrictCodes(districts: seq<District>): seq<string> {
    if districts == [] then []
    else
      var last := districts[|districts| - 1];
      DistrictCodes(districts[..|districts| - 1]) + ([last.code] + VillageCodes(last.villages))
  }

  function CityCodes(cities: seq<City>): seq<string> {
    if cities == [] then []
    else
      var last := cities[|cities| - 1];
      CityCodes(cities[..|cities| - 1]) + ([last.code] + DistrictCodes(last.districts))
  }

  /** Every code of the forest, each parent before its children. */
  function Preorder(forest: seq<Province>): seq<string> {
    if forest == [] then []
    else
      var last := forest[|forest| - 1];
      Preorder(forest[..|forest| - 1]) + ([last.code] + CityCodes(last.cities))
  }

  // Each region under its prefix, with its own data

  /** A region at `level` under the code `parent`, carrying the name that was read for its code. */
  predicate Hangs(level: nat, code: string, name: string, parent: string, names: map<string, string>) {
    && HasShape(level, code)
    && (level > 0 ==> parent == ParentOf(code))
    && code in names && name == names[code]
  }

  predicate VillagesHang(villages: seq<Village>, parent: string, names: map<string, string>,
                         postal: map<string, string>) {
    forall v | v in villages ::
      Hangs(3, v.code, v.name, parent, names) && v.postalCode == PostalFor(v.code, postal)
  }

  predicate DistrictsHang(districts: seq<District>, parent: string, names: map<string, string>,
                          postal: map<string, string>) {
    forall d | d in districts :: Hangs(2, d.code, d.name, parent, names) && VillagesHang(d.villages, d.code, names, postal)
  }

  predicate CitiesHang(cities: seq<City>, parent: string, names: map<string, string>, postal: map<string, string>) {
    forall c | c in cities ::
      && Hangs(1, c.code, c.name, parent, names)
      && CityTypeOf(c.name) == Some(c.kind)
      && DistrictsHang(c.districts, c.code, names, postal)
  }

  predicate ForestHangs(forest: seq<Province>, names: map<string, string>, postal: map<string, string>) {
    forall p | p in forest :: Hangs(0, p.code, p.name, "", names) && CitiesHang(p.cities, p.code, names, postal)
  }

  // Adding under a code that is not there changes nothing

  lemma {:induction false} NoSuchDistrict(districts: seq<District>, parent: string, village: Village)
    requires parent !in DistrictCodes(districts)
    ensures ToDistricts(districts, parent, village) == districts
    decreases |districts|
  {
    if districts != [] {
      var front := districts[..|districts| - 1];
      NoSuchDistrict(front, parent, village);
      assert districts[|districts| - 1].code in DistrictCodes(districts);
      assert forall k | 0 <= k < |front| :: ToDistricts(front, parent, village)[k] == ToDistricts(districts, parent, village)[k];
    }
  }

  lemma {:induction false} NoDistrictInCities(cities: seq<City>, parent: string, village: Village)
    requires parent !in CityCodes(cities)
    ensures ToCities(cities, parent, village) == cities
    decreases |cities|
  {
    if cities != [] {
      var front := cities[..|cities| - 1];
      NoDistrictInCities(front, parent, village);
      NoSuchDistrict(cities[|cities| - 1].districts, parent, village);
      assert forall k | 0 <= k < |front| :: ToCities(front, parent, village)[k] == ToCities(cities, parent, village)[k];
    }
  }

  lemma {:induction false} NoDistrictInForest(forest: seq<Province>, parent: string, village: Village)
    requires parent !in Preorder(forest)
    ensures AddVillage(forest, parent, village) == forest
    decreases |forest|
  {
    if forest != [] {
      var front := forest[..|forest| - 1];
      NoDistrictInForest(front, parent, village);
      NoDistrictInCities(forest[|forest| - 1].cities, parent, village);
      assert forall k | 0 <= k < |front| :: AddVillage(front, parent, village)[k] == AddVillage(forest, parent, village)[k];
    }
  }

  lemma {:induction false} NoSuchCity(cities: seq<City>, parent: string, district: District)
    requires parent !in CityCodes(cities)
    ensures WithDistrict(cities, parent, district) == cities
    decreases |cities|
  {
    if cities != [] {
      var front := cities[..|cities| - 1];
      NoSuchCity(front, parent, district);
      assert cities[|cities| - 1].code in CityCodes(cities);
      assert forall k | 0 <= k < |front| :: WithDistrict(front, parent, district)[k] == WithDistrict(cities, parent, district)[k];
    }
  }

  lemma {:induction false} NoCityInForest(forest: seq<Province>, parent: string, district: District)
    requires parent !in Preorder(forest)
    ensures AddDistrict(forest, parent, district) == forest
    decreases |forest|
  {
    if forest != [] {
      var front := forest[..|forest| - 1];
      NoCityInForest(front, parent, district);
      NoSuchCity(forest[|forest| - 1].cities, parent, district);
      assert forall k | 0 <= k < |front| :: AddDistrict(front, parent, district)[k] == AddDistrict(forest, parent, district)[k];
    }
  }

  lemma {:induction false} NoSuchProvince(forest: seq<Province>, parent: string, city: City)
    requires parent !in Preorder(forest)
    ensures AddCity(forest, parent, city) == forest
    decreases |forest|
  {
    if forest != [] {
      var front := forest[..|forest| - 1];
      NoSuchProvince(front, parent, city);
      assert forest[|forest| - 1].code in Preorder(forest);
      assert forall k | 0 <= k < |front| :: AddCity(front, parent, city)[k] == AddCity(forest, parent, city)[k];
    }
  }

  // Adding at the end of the last path adds at the end of the preorder

  ghost predicate Distinct(codes: seq<string>) {
    forall i, j | 0 <= i < j < |codes| :: codes[i] != codes[j]
  }

  lemma {:induction false} DistinctParts(a: seq<string>, c: string, b: seq<string>)
    requires Distinct(a + ([c] + b))
    ensures Distinct(b) && c !in a && c !in b
    ensures forall x | x in b :: x !in a
  {
    var all := a + ([c] + b);
    assert all[|a|] == c;
    assert forall i | 0 <= i < |a| :: all[i] == a[i];
    assert forall i | 0 <= i < |b| :: all[|a| + 1 + i] == b[i];
  }

  /** One more row at the end: its code and then the codes under it. */
  lemma {:induction false} OneDistrictMore(front: seq<District>, d: District)
    ensures DistrictCodes(front + [d]) == DistrictCodes(front) + ([d.code] + VillageCodes(d.villages))
  {
    assert (front + [d])[..|front|] == front;
  }

  lemma {:induction false} OneCityMore(front: seq<City>, c: City)
    ensures CityCodes(front + [c]) == CityCodes(front) + ([c.code] + DistrictCodes(c.districts))
  {
    assert (front + [c])[..|front|] == front;
  }

  lemma {:induction false} OneProvinceMore(front: seq<Province>, p: Province)
    ensures Preorder(front + [p]) == Preorder(front) + ([p.code] + CityCodes(p.cities))
  {
    assert (front + [p])[..|front|] == front;
  }

  lemma {:induction false} EndGrows(a: seq<string>, c: string, b: seq<string>, more: string)
    ensures a + ([c] + (b + [more])) == a + ([c] + b) + [more]
  {
  }

  lemma {:induction false} VillageCodesGrow(villages: seq<Village>, village: Village)
    ensures VillageCodes(villages + [village]) == VillageCodes(villages) + [village.code]
  {
    assert (villages + [village])[..|villages|] == villages;
  }

  lemma {:induction false} LastDistrictIsListed(districts: seq<District>)
    requires districts != []
    ensures districts[|districts| - 1].code in DistrictCodes(districts)
  {
  }

  lemma {:induction false} LastCityIsListed(cities: seq<City>)
    requires cities != []
    ensures cities[|cities| - 1].code in CityCodes(cities)
  {
  }

  lemma {:induction false} VillageGrows(front: seq<District>, last: District, village: Village)
    requires Distinct(DistrictCodes(front + [last]))
    ensures DistrictCodes(ToDistricts(front + [last], last.code, village)) == DistrictCodes(front + [last]) + [village.code]
  {
    OneDistrictMore(front, last);
    DistinctParts(DistrictCodes(front), last.code, VillageCodes(last.villages));
    NoSuchDistrict(front, last.code, village);
    var grown := last.(villages := last.villages + [village]);
    assert ToDistricts(front + [last], last.code, village) == ToDistricts(front, last.code, village) + [grown];
    OneDistrictMore(front, grown);
    VillageCodesGrow(last.villages, village);
    EndGrows(DistrictCodes(front), last.code, VillageCodes(last.villages), village.code);
  }

  /** The same, with the last district found in its place. */
  lemma {:induction false} VillageGrowsLast(districts: seq<District>, parent: string, village: Village)
    requires districts != [] && districts[|districts| - 1].code == parent && Distinct(DistrictCodes(districts))
    ensures DistrictCodes(ToDistricts(districts, parent, village)) == DistrictCodes(districts) + [village.code]
    ensures parent in DistrictCodes(districts)
  {
    var n := |districts| - 1;
    assert districts == districts[..n] + [districts[n]];
    VillageGrows(districts[..n], districts[n], village);
    LastDistrictIsListed(districts);
  }

  lemma {:induction false} ToCitiesOneMore(front: seq<City>, last: City, parent: string, village: Village)
    ensures ToCities(front + [last], parent, village)
         == ToCities(front, parent, village) + [last.(districts := ToDistricts(last.districts, parent, village))]
  {
  }

  lemma {:induction false} VillageGrowsInCities(front: seq<City>, last: City, parent: string, village: Village)
    requires Distinct(CityCodes(front + [last])) && last.districts != [] && last.districts[|last.districts| - 1].code == parent
    ensures CityCodes(ToCities(front + [last], parent, village)) == CityCodes(front + [last]) + [village.code]
    ensures parent in CityCodes(front + [last])
  {
    OneCityMore(front, last);
    DistinctParts(CityCodes(front), last.code, DistrictCodes(last.districts));
    VillageGrowsLast(last.districts, parent, village);
    NoDistrictInCities(front, parent, village);
    ToCitiesOneMore(front, last, parent, village);
    OneCityMore(front, last.(districts := ToDistricts(last.districts, parent, village)));
    EndGrows(CityCodes(front), last.code, DistrictCodes(last.districts), village.code);
  }

  lemma {:induction false} VillageGrowsInLastCity(cities: seq<City>, parent: string, village: Village)
    requires cities != [] && Distinct(CityCodes(cities))
    requires var districts := cities[|cities| - 1].districts; districts != [] && districts[|districts| - 1].code == parent
    ensures CityCodes(ToCities(cities, parent, village)) == CityCodes(cities) + [village.code]
    ensures parent in CityCodes(cities)
  {
    var n := |cities| - 1;
    assert cities == cities[..n] + [cities[n]];
    VillageGrowsInCities(cities[..n], cities[n], parent, village);
  }

  lemma {:induction false} AddVillageOneMore(front: seq<Province>, last: Province, parent: string, village: Village)
    ensures AddVillage(front + [last], parent, village)
         == AddVillage(front, parent, village) + [last.(cities := ToCities(last.cities, parent, village))]
  {
  }

  lemma {:induction false} VillageGrowsInForest(front: seq<Province>, last: Province, parent: string, village: Village)
    requires Distinct(Preorder(front + [last]))
    requires last.cities != []
    requires var districts := last.cities[|last.cities| - 1].districts;
      districts != [] && districts[|districts| - 1].code == parent
    ensures Preorder(AddVillage(front + [last], parent, village)) == Preorder(front + [last]) + [village.code]
  {
    OneProvinceMore(front, last);
    DistinctParts(Preorder(front), last.code, CityCodes(last.cities));
    VillageGrowsInLastCity(last.cities, parent, village);
    NoDistrictInForest(front, parent, village);
    AddVillageOneMore(front, last, parent, village);
    OneProvinceMore(front, last.(cities := ToCities(last.cities, parent, village)));
    EndGrows(Preorder(front), last.code, CityCodes(last.cities), village.code);
  }

  lemma {:induction false} WithDistrictOneMore(front: seq<City>, last: City, district: District)
    ensures WithDistrict(front + [last], last.code, district)
         == WithDistrict(front, last.code, district) + [last.(districts := last.districts + [district])]
  {
  }

  lemma {:induction false} DistrictGrows(front: seq<City>, last: City, district: District)
    requires Distinct(CityCodes(front + [last])) && district.villages == []
    ensures CityCodes(WithDistrict(front + [last], last.code, district)) == CityCodes(front + [last]) + [district.code]
  {
    OneCityMore(front, last);
    DistinctParts(CityCodes(front), last.code, DistrictCodes(last.districts));
    NoSuchCity(front, last.code, district);
    WithDistrictOneMore(front, last, district);
    OneCityMore(front, last.(districts := last.districts + [district]));
    OneDistrictMore(last.districts, district);
    EndGrows(CityCodes(front), last.code, DistrictCodes(last.districts), district.code);
  }

  lemma {:induction false} DistrictGrowsLast(cities: seq<City>, parent: string, district: District)
    requires cities != [] && cities[|cities| - 1].code == parent && Distinct(CityCodes(cities)) && district.villages == []
    ensures CityCodes(WithDistrict(cities, parent, district)) == CityCodes(cities) + [district.code]
    ensures parent in CityCodes(cities)
  {
    var n := |cities| - 1;
    assert cities == cities[..n] + [cities[n]];
    DistrictGrows(cities[..n], cities[n], district);
    LastCityIsListed(cities);
  }

  lemma {:induction false} AddDistrictOneMore(front: seq<Province>, last: Province, parent: string, district: District)
    ensures AddDistrict(front + [last], parent, district)
         == AddDistrict(front, parent, district) + [last.(cities := WithDistrict(last.cities, parent, district))]
  {
  }

  lemma {:induction false} DistrictGrowsInForest(front: seq<Province>, last: Province, parent: string, district: District)
    requires Distinct(Preorder(front + [last])) && district.villages == []
    requires last.cities != [] && last.cities[|last.cities| - 1].code == parent
    ensures Preorder(AddDistrict(front + [last], parent, district)) == Preorder(front + [last]) + [district.code]
  {
    OneProvinceMore(front, last);
    DistinctParts(Preorder(front), last.code, CityCodes(last.cities));
    DistrictGrowsLast(last.cities, parent, district);
    NoCityInForest(front, parent, district);
    AddDistrictOneMore(front, last, parent, district);
    OneProvinceMore(front, last.(cities := WithDistrict(last.cities, parent, district)));
    EndGrows(Preorder(front), last.code, CityCodes(last.cities), district.code);
  }

  lemma {:induction false} CityGrows(front: seq<Province>, last: Province, city: City)
    requires Distinct(Preorder(front + [last])) && city.districts == []
    ensures Preorder(AddCity(front + [last], last.code, city)) == Preorder(front + [last]) + [city.code]
  {
    OneProvinceMore(front, last);
    DistinctParts(Preorder(front), last.code, CityCodes(last.cities));
    NoSuchProvince(front, last.code, city);
    var grown := last.(cities := last.cities + [city]);
    assert AddCity(front + [last], last.code, city) == AddCity(front, last.code, city) + [grown];
    OneProvinceMore(front, grown);
    OneCityMore(last.cities, city);
    EndGrows(Preorder(front), last.code, CityCodes(last.cities), city.code);
  }

  // The last path

  /** The last province, city and district are the prefixes of the last code of the preorder. */
  predicate EndsAt(forest: seq<Province>, x: string) {
    && |x| >= 2 && forest != []
    && var p := forest[|forest| - 1];
    && p.code == x[..2]
    && (|x| >= 5 ==>
          && p.cities != []
          && var c := p.cities[|p.cities| - 1];
          && c.code == x[..5]
          && (|x| >= 8 ==> c.districts != [] && c.districts[|c.districts| - 1].code == x[..8]))
  }

  lemma {:induction false} ChildPrefix(level: nat, code: string, parent: string)
    requires level > 0 && HasShape(level, code) && parent == ParentOf(code)
    ensures parent == code[..Width(level - 1)]
  {
    ShapeGivesLevel(level, code);
    ParentIsThePrefix(code);
  }

  function End(codes: seq<string>): string
    requires codes != []
  {
    codes[|codes| - 1]
  }

  lemma {:induction false} EndOfRow(a: seq<string>, c: string, b: seq<string>)
    ensures End(a + ([c] + b)) == if b == [] then c else End(b)
  {
  }

  /** A longer prefix determines the shorter one. */
  lemma {:induction false} PrefixOfPrefix(x: string, short: nat, long: nat)
    requires short <= long <= |x|
    ensures x[..long][..short] == x[..short]
  {
  }

  lemma {:induction false} LastVillage(d: District, names: map<string, string>, postal: map<string, string>)
    requires VillagesHang(d.villages, d.code, names, postal) && d.villages != [] && |d.code| == 8
    ensures VillageCodes(d.villages) != []
    ensures var x := End(VillageCodes(d.villages)); |x| >= 8 && x[..8] == d.code
  {
    var v := d.villages[|d.villages| - 1];
    assert v in d.villages;
    ChildPrefix(3, v.code, d.code);
  }

  lemma {:induction false} LastDistrict(districts: seq<District>, parent: string, names: map<string, string>,
                                        postal: map<string, string>)
    requires DistrictsHang(districts, parent, names, postal) && districts != []
    ensures DistrictCodes(districts) != []
    ensures var x := End(DistrictCodes(districts));
      |x| >= 8 && x[..8] == districts[|districts| - 1].code && x[..5] == parent
  {
    var front, d := districts[..|districts| - 1], districts[|districts| - 1];
    assert d in districts;
    ChildPrefix(2, d.code, parent);
    if d.villages != [] {
      LastVillage(d, names, postal);
    }
    EndOfRow(DistrictCodes(front), d.code, VillageCodes(d.villages));
    PrefixOfPrefix(End(DistrictCodes(districts)), 5, 8);
  }

  lemma {:induction false} LastCity(cities: seq<City>, parent: string, names: map<string, string>,
                                    postal: map<string, string>)
    requires CitiesHang(cities, parent, names, postal) && cities != []
    ensures CityCodes(cities) != []
    ensures var x, districts := End(CityCodes(cities)), cities[|cities| - 1].districts;
      && |x| >= 5 && x[..5] == cities[|cities| - 1].code && x[..2] == parent
      && (|x| >= 8 ==> districts != [] && districts[|districts| - 1].code == x[..8])
  {
    var front, c := cities[..|cities| - 1], cities[|cities| - 1];
    assert c in cities;
    ChildPrefix(1, c.code, parent);
    EndOfRow(CityCodes(front), c.code, DistrictCodes(c.districts));
    var x := End(CityCodes(cities));
    if c.districts == [] {
      assert x == c.code;
    } else {
      LastDistrict(c.districts, c.code, names, postal);
      assert x == End(DistrictCodes(c.districts));
      PrefixOfPrefix(x, 2, 5);
    }
  }

  lemma {:induction false} EndsAtLast(forest: seq<Province>, x: string)
    requires forest != [] && |x| >= 2
    requires var p := forest[|forest| - 1];
      && p.code == x[..2]
      && (|x| >= 5 ==> p.cities != [] && p.cities[|p.cities| - 1].code == x[..5])
      && (|x| >= 8 ==>
            && var districts := p.cities[|p.cities| - 1].districts;
            && districts != [] && districts[|districts| - 1].code == x[..8])
    ensures EndsAt(forest, x)
  {
  }

  lemma {:induction false} LastPath(forest: seq<Province>, names: map<string, string>, postal: map<string, string>)
    requires ForestHangs(forest, names, postal) && forest != []
    ensures Preorder(forest) != [] && EndsAt(forest, End(Preorder(forest)))
  {
    var front, p := forest[..|forest| - 1], forest[|forest| - 1];
    assert p in forest;
    EndOfRow(Preorder(front), p.code, CityCodes(p.cities));
    var x := End(Preorder(forest));
    if p.cities != [] {
      LastCity(p.cities, p.code, names, postal);
      assert x == End(CityCodes(p.cities));
    } else {
      assert x == p.code && |x| == 2;
    }
    EndsAtLast(forest, x);
  }

  /** The parent of the next code ends a node of the last path, because nothing else sorts between it and the next code. */
  lemma {:induction false} ParentOnLastPath(codes: seq<string>, code: string)
    requires codes != [] && Sorted(codes + [code]) && IsCode(code) && LevelOf(code) > 0 && ParentOf(code) in codes
    ensures ParentOf(code) <= End(codes)
    ensures |ParentOf(code)| == Width(LevelOf(code) - 1)
  {
    var parent, x := ParentOf(code), codes[|codes| - 1];
    ParentIsThePrefix(code);
    var all := codes + [code];
    var i :| 0 <= i < |codes| && codes[i] == parent;
    assert all[i] == parent && all[|codes| - 1] == x && all[|codes|] == code;
    BetweenKeepsPrefix(parent, x, code);
  }

  // One step

  lemma {:induction false} SortedIsDistinct(codes: seq<string>)
    requires Sorted(codes)
    ensures Distinct(codes)
  {
    forall i, j | 0 <= i < j < |codes|
      ensures codes[i] != codes[j]
    {
      LessIsTotal(codes[i], codes[j]);
    }
  }

  lemma {:induction false} SortedFront(codes: seq<string>, code: string)
    requires Sorted(codes + [code])
    ensures Sorted(codes)
  {
    var all := codes + [code];
    assert forall i | 0 <= i < |codes| :: all[i] == codes[i];
  }

  /** What the build keeps of its codes. */
  ghost predicate Grown(forest: seq<Province>, codes: seq<string>, names: map<string, string>,
                        postal: map<string, string>) {
    Preorder(forest) == codes && ForestHangs(forest, names, postal)
  }

  /** A region placed below a node of the last path comes last in the preorder. */
  lemma {:induction false} PlaceOnLastPath(forest: seq<Province>, codes: seq<string>, code: string, name: string,
                                           postal: map<string, string>, x: string)
    requires Distinct(Preorder(forest)) && IsCode(code) && LevelOf(code) > 0 && Place(forest, codes, code, name, postal).Success?
    requires EndsAt(forest, x) && |ParentOf(code)| == Width(LevelOf(code) - 1) && ParentOf(code) <= x
    ensures Preorder(Place(forest, codes, code, name, postal).value) == Preorder(forest) + [code]
  {
    var level, parent := LevelOf(code), ParentOf(code);
    assert parent == x[..Width(level - 1)];
    var front, last := forest[..|forest| - 1], forest[|forest| - 1];
    assert forest == front + [last];
    if level == 1 {
      CityGrows(front, last, City(code, name, CityTypeOf(name).value, []));
    } else if level == 2 {
      DistrictGrowsInForest(front, last, parent, District(code, name, []));
    } else {
      VillageGrowsInForest(front, last, parent, Village(code, name, PostalFor(code, postal)));
    }
  }

  lemma {:induction false} PlaceKeepsOrder(forest: seq<Province>, codes: seq<string>, code: string,
                                           names: map<string, string>, postal: map<string, string>)
    requires Grown(forest, codes, names, postal) && Sorted(codes + [code]) && IsCode(code) && code in names
    requires Place(forest, codes, code, names[code], postal).Success?
    ensures Preorder(Place(forest, codes, code, names[code], postal).value) == codes + [code]
  {
    SortedFront(codes, code);
    SortedIsDistinct(codes);
    if LevelOf(code) == 0 {
      OneProvinceMore(forest, Province(code, names[code], []));
    } else {
      assert ParentOf(code) in codes;
      ParentOnLastPath(codes, code);
      LastPath(forest, names, postal);
      PlaceOnLastPath(forest, codes, code, names[code], postal, End(codes));
    }
  }

  lemma {:induction false} VillagesStayHung(districts: seq<District>, parent: string, village: Village, under: string,
                         names: map<string, string>, postal: map<string, string>)
    requires DistrictsHang(districts, under, names, postal)
    requires Hangs(3, village.code, village.name, parent, names) && village.postalCode == PostalFor(village.code, postal)
    ensures DistrictsHang(ToDistricts(districts, parent, village), under, names, postal)
  {
    var grown := ToDistricts(districts, parent, village);
    forall d | d in grown
      ensures Hangs(2, d.code, d.name, under, names) && VillagesHang(d.villages, d.code, names, postal)
    {
      var k :| 0 <= k < |grown| && grown[k] == d;
      assert districts[k] in districts;
    }
  }

  lemma {:induction false} AddVillageHangs(forest: seq<Province>, parent: string, village: Village,
                                           names: map<string, string>, postal: map<string, string>)
    requires ForestHangs(forest, names, postal)
    requires Hangs(3, village.code, village.name, parent, names) && village.postalCode == PostalFor(village.code, postal)
    ensures ForestHangs(AddVillage(forest, parent, village), names, postal)
  {
    var grown := AddVillage(forest, parent, village);
    forall p | p in grown
      ensures Hangs(0, p.code, p.name, "", names) && CitiesHang(p.cities, p.code, names, postal)
    {
      var i :| 0 <= i < |grown| && grown[i] == p;
      assert forest[i] in forest;
      forall c | c in p.cities
        ensures && Hangs(1, c.code, c.name, p.code, names) && CityTypeOf(c.name) == Some(c.kind)
                && DistrictsHang(c.districts, c.code, names, postal)
      {
        var j :| 0 <= j < |p.cities| && p.cities[j] == c;
        var was := forest[i].cities[j];
        assert was in forest[i].cities;
        VillagesStayHung(was.districts, parent, village, was.code, names, postal);
      }
    }
  }

  lemma {:induction false} DistrictsStayHung(cities: seq<City>, parent: string, district: District, under: string,
                          names: map<string, string>, postal: map<string, string>)
    requires CitiesHang(cities, under, names, postal)
    requires Hangs(2, district.code, district.name, parent, names) && district.villages == []
    ensures CitiesHang(WithDistrict(cities, parent, district), under, names, postal)
  {
    var grown := WithDistrict(cities, parent, district);
    forall c | c in grown
      ensures && Hangs(1, c.code, c.name, under, names) && CityTypeOf(c.name) == Some(c.kind)
              && DistrictsHang(c.districts, c.code, names, postal)
    {
      var k :| 0 <= k < |grown| && grown[k] == c;
      assert cities[k] in cities;
    }
  }

  lemma {:induction false} AddDistrictHangs(forest: seq<Province>, parent: string, district: District,
                                            names: map<string, string>, postal: map<string, string>)
    requires ForestHangs(forest, names, postal)
    requires Hangs(2, district.code, district.name, parent, names) && district.villages == []
    ensures ForestHangs(AddDistrict(forest, parent, district), names, postal)
  {
    var grown := AddDistrict(forest, parent, district);
    forall p | p in grown
      ensures Hangs(0, p.code, p.name, "", names) && CitiesHang(p.cities, p.code, names, postal)
    {
      var i :| 0 <= i < |grown| && grown[i] == p;
      assert forest[i] in forest;
      DistrictsStayHung(forest[i].cities, parent, district, forest[i].code, names, postal);
    }
  }

  lemma {:induction false} AddCityHangs(forest: seq<Province>, parent: string, city: City, names: map<string, string>,
                     postal: map<string, string>)
    requires ForestHangs(forest, names, postal)
    requires Hangs(1, city.code, city.name, parent, names) && CityTypeOf(city.name) == Some(city.kind)
    requires city.districts == []
    ensures ForestHangs(AddCity(forest, parent, city), names, postal)
  {
    var grown := AddCity(forest, parent, city);
    forall p | p in grown
      ensures Hangs(0, p.code, p.name, "", names) && CitiesHang(p.cities, p.code, names, postal)
    {
      var i :| 0 <= i < |grown| && grown[i] == p;
      assert forest[i] in forest;
    }
  }

  lemma {:induction false} PlaceHangs(forest: seq<Province>, codes: seq<string>, code: string,
                                      names: map<string, string>, postal: map<string, string>)
    requires ForestHangs(forest, names, postal) && IsCode(code) && code in names
    requires Place(forest, codes, code, names[code], postal).Success?
    ensures ForestHangs(Place(forest, codes, code, names[code], postal).value, names, postal)
  {
    var level, parent, name := LevelOf(code), ParentOf(code), names[code];
    if level == 1 {
      AddCityHangs(forest, parent, City(code, name, CityTypeOf(name).value, []), names, postal);
    } else if level == 2 {
      AddDistrictHangs(forest, parent, District(code, name, []), names, postal);
    } else if level == 3 {
      AddVillageHangs(forest, parent, Village(code, name, PostalFor(code, postal)), names, postal);
    }
  }

  // The whole build

  ghost predicate ReadyToBuild(codes: seq<string>, names: map<string, string>) {
    Sorted(codes) && forall c | c in codes :: IsCode(c) && c in names
  }

  lemma {:induction false} ReadyFront(codes: seq<string>, names: map<string, string>)
    requires ReadyToBuild(codes, names) && codes != []
    ensures ReadyToBuild(codes[..|codes| - 1], names)
    ensures codes == codes[..|codes| - 1] + [codes[|codes| - 1]]
  {
  }

  /** The preorder of the tree is the sorted code list, and every region is under its own prefix with its own data. */
  lemma {:induction false} TreeIsTheSortedCodes(codes: seq<string>, names: map<string, string>,
                                                postal: map<string, string>)
    requires ReadyToBuild(codes, names)
    ensures Build(codes, names, postal).Success? ==> Grown(Build(codes, names, postal).value, codes, names, postal)
    decreases |codes|
  {
    if codes != [] && Build(codes, names, postal).Success? {
      var front, code := codes[..|codes| - 1], codes[|codes| - 1];
      ReadyFront(codes, names);
      TreeIsTheSortedCodes(front, names, postal);
      var forest := Build(front, names, postal).value;
      PlaceKeepsOrder(forest, front, code, names, postal);
      PlaceHangs(forest, front, code, names, postal);
    }
  }

  predicate HasItsParent(code: string, codes: seq<string>) {
    LevelOf(code) == 0 || ParentOf(code) in codes
  }

  predicate IsDesignated(code: string, names: map<string, string>) {
    LevelOf(code) == 1 ==> code in names && CityTypeOf(names[code]).Some?
  }

  predicate PrefixClosed(codes: seq<string>) {
    forall c | c in codes :: HasItsParent(c, codes)
  }

  /** A parent sorts before its child, so it is among the codes placed earlier or nowhere. */
  lemma {:induction false} ParentComesFirst(codes: seq<string>, k: nat)
    requires Sorted(codes) && k < |codes| && IsCode(codes[k])
    ensures HasItsParent(codes[k], codes) <==> HasItsParent(codes[k], codes[..k])
  {
    var code, parent := codes[k], ParentOf(codes[k]);
    if LevelOf(code) > 0 && parent in codes {
      var i :| 0 <= i < |codes| && codes[i] == parent;
      ParentIsThePrefix(code);
      PrefixIsLess(parent, code);
      LessIsTotal(parent, code);
      assert i < k;
      assert codes[..k][i] == parent;
    }
  }

  predicate Buildable(codes: seq<string>, names: map<string, string>, k: nat)
    requires k < |codes|
  {
    HasItsParent(codes[k], codes) && IsDesignated(codes[k], names)
  }

  /** The build of a prefix of the codes succeeds exactly when each of its codes has a parent and, for a city, a designation. */
  lemma {:induction false} PrefixBuilds(codes: seq<string>, n: nat, names: map<string, string>,
                                        postal: map<string, string>)
    requires ReadyToBuild(codes, names) && n <= |codes|
    ensures Build(codes[..n], names, postal).Success? <==> forall k | 0 <= k < n :: Buildable(codes, names, k)
    decreases n
  {
    if n > 0 {
      var code := codes[n - 1];
      PrefixBuilds(codes, n - 1, names, postal);
      assert codes[..n][..n - 1] == codes[..n - 1];
      ParentComesFirst(codes, n - 1);
      var before := Build(codes[..n - 1], names, postal);
      if before.Success? {
        PlacesExactly(before.value, codes[..n - 1], code, names, postal);
      }
      assert (forall k | 0 <= k < n :: Buildable(codes, names, k))
          <==> (forall k | 0 <= k < n - 1 :: Buildable(codes, names, k)) && Buildable(codes, names, n - 1);
    }
  }

  /** What stops a code that cannot be placed. */
  function Obstacle(code: string, codes: seq<string>): RegionError {
    if HasItsParent(code, codes) then NO_DESIGNATION(code) else ORPHAN(code)
  }

  lemma {:induction false} PlacesExactly(forest: seq<Province>, placed: seq<string>, code: string,
                                         names: map<string, string>, postal: map<string, string>)
    requires IsCode(code) && code in names
    ensures Place(forest, placed, code, names[code], postal).Success?
       <==> HasItsParent(code, placed) && IsDesignated(code, names)
    ensures Place(forest, placed, code, names[code], postal).Failure?
        ==> Place(forest, placed, code, names[code], postal).error == Obstacle(code, placed)
  {
  }

  /** The tree is built exactly when the code set is prefix-closed and every city name has its designation. */
  lemma {:induction false} BuildsExactlyWhenClosed(codes: seq<string>, names: map<string, string>,
                                                   postal: map<string, string>)
    requires ReadyToBuild(codes, names)
    ensures Build(codes, names, postal).Success? <==> PrefixClosed(codes) && forall c | c in codes :: IsDesignated(c, names)
  {
    PrefixBuilds(codes, |codes|, names, postal);
    assert codes[..|codes|] == codes;
    if forall k | 0 <= k < |codes| :: Buildable(codes, names, k) {
      forall c | c in codes
        ensures HasItsParent(c, codes) && IsDesignated(c, names)
      {
        var k :| 0 <= k < |codes| && codes[k] == c;
        assert Buildable(codes, names, k);
      }
    }
  }

  /** A failure names the first code, in sorted order, that has no parent or, having one, no designation. */
  lemma {:induction false} FailureNamesTheFirst(codes: seq<string>, n: nat, names: map<string, string>,
                                                postal: map<string, string>) returns (k: nat)
    requires ReadyToBuild(codes, names) && n <= |codes| && Build(codes[..n], names, postal).Failure?
    ensures k < n && !Buildable(codes, names, k) && forall i | 0 <= i < k :: Buildable(codes, names, i)
    ensures Build(codes[..n], names, postal).error == Obstacle(codes[k], codes)
    decreases n
  {
    assert codes[..n][..n - 1] == codes[..n - 1];
    var before := Build(codes[..n - 1], names, postal);
    if before.Failure? {
      k := FailureNamesTheFirst(codes, n - 1, names, postal);
    } else {
      k := n - 1;
      LastIsTheObstacle(codes, k, names, postal);
    }
  }

  lemma {:induction false} LastIsTheObstacle(codes: seq<string>, k: nat, names: map<string, string>,
                                             postal: map<string, string>)
    requires ReadyToBuild(codes, names) && k < |codes|
    requires Build(codes[..k], names, postal).Success? && Build(codes[..k + 1], names, postal).Failure?
    ensures !Buildable(codes, names, k) && forall i | 0 <= i < k :: Buildable(codes, names, i)
    ensures Build(codes[..k + 1], names, postal).error == Obstacle(codes[k], codes)
  {
    assert codes[..k + 1][..k] == codes[..k];
    PrefixBuilds(codes, k, names, postal);
    ParentComesFirst(codes, k);
    PlacesExactly(Build(codes[..k], names, postal).value, codes[..k], codes[k], names, postal);
  }

  /** Where every city has its designation, the orphan failure occurs exactly when the code set is not prefix-closed. */
  lemma {:induction false} OrphanExactlyWhenNotClosed(codes: seq<string>, names: map<string, string>,
                                                      postal: map<string, string>)
    requires ReadyToBuild(codes, names) && forall c | c in codes :: IsDesignated(c, names)
    ensures (Build(codes, names, postal).Failure? && Build(codes, names, postal).error.ORPHAN?) <==> !PrefixClosed(codes)
  {
    BuildsExactlyWhenClosed(codes, names, postal);
    assert codes[..|codes|] == codes;
    if Build(codes, names, postal).Failure? {
      var k := FailureNamesTheFirst(codes, |codes|, names, postal);
      assert codes[k] in codes;
    }
  }

  // From the tables to the tree

  ghost predicate WellRead(entries: seq<Entry>) {
    && Distinct(CodesOf(entries))
    && forall e | e in entries :: IsCode(e.0) && Text.Trim(e.1) != ""
  }

  /** The name read for a code that the table holds. */
  ghost predicate NamesAreRead(names: map<string, string>, entries: seq<Entry>) {
    forall e | e in entries :: e.0 in names && names[e.0] == Text.Trim(e.1)
  }

  lemma {:induction false} CodesHold(entries: seq<Entry>)
    ensures forall e | e in entries :: e.0 in CodesOf(entries)
    ensures forall c | c in CodesOf(entries) :: exists e :: e in entries && e.0 == c
  {
    forall e | e in entries
      ensures e.0 in CodesOf(entries)
    {
      var i :| 0 <= i < |entries| && entries[i] == e;
      assert CodesOf(entries)[i] == e.0;
    }
    forall c | c in CodesOf(entries)
      ensures exists e :: e in entries && e.0 == c
    {
      var i :| 0 <= i < |CodesOf(entries)| && CodesOf(entries)[i] == c;
      assert entries[i] in entries;
    }
  }

  /** The table is read exactly when its codes are distinct and well formed and its names are not blank. */
  lemma {:induction false} ReadsExactly(entries: seq<Entry>)
    ensures RegionsOf(entries).Success? <==> WellRead(entries)
    ensures RegionsOf(entries).Success? ==>
              && RegionsOf(entries).value.codes == CodesOf(entries)
              && (forall c :: c in RegionsOf(entries).value.names <==> c in CodesOf(entries))
              && NamesAreRead(RegionsOf(entries).value.names, entries)
    decreases |entries|
  {
    if entries != [] {
      var front, last := entries[..|entries| - 1], entries[|entries| - 1];
      ReadsExactly(front);
      assert entries == front + [last];
      WellReadOneMore(front, last);
      CodesHold(front);
    }
  }

  lemma {:induction false} WellReadOneMore(front: seq<Entry>, last: Entry)
    ensures CodesOf(front + [last]) == CodesOf(front) + [last.0]
    ensures WellRead(front + [last])
       <==> WellRead(front) && last.0 !in CodesOf(front) && IsCode(last.0) && Text.Trim(last.1) != ""
  {
    var all, codes := front + [last], CodesOf(front);
    assert CodesOf(all) == codes + [last.0];
    assert last in all && forall e | e in front :: e in all;
    assert forall i | 0 <= i < |codes| :: CodesOf(all)[i] == codes[i];
    if Distinct(CodesOf(all)) {
      assert CodesOf(all)[|codes|] == last.0;
      assert last.0 !in codes;
    }
  }

  lemma {:induction false} ReadIsReady(entries: seq<Entry>)
    requires RegionsOf(entries).Success?
    ensures RegionsOf(entries).value.codes == CodesOf(entries)
    ensures ReadyToBuild(SortCodes(CodesOf(entries)), RegionsOf(entries).value.names)
  {
    ReadsExactly(entries);
    SortSorts(CodesOf(entries));
    SortKeeps(CodesOf(entries));
    var codes := CodesOf(entries);
    forall c | c in codes
      ensures IsCode(c)
    {
      var i :| 0 <= i < |codes| && codes[i] == c;
      assert entries[i] in entries;
    }
  }

  lemma {:induction false} SortKeeps(codes: seq<string>)
    requires Distinct(codes)
    ensures forall c :: c in SortCodes(codes) <==> c in codes
  {
    SortSorts(codes);
    forall c
      ensures c in SortCodes(codes) <==> c in codes
    {
      assert c in codes <==> c in multiset(codes);
      assert c in SortCodes(codes) <==> c in multiset(SortCodes(codes));
    }
  }

  /** What the tool emits. */
  ghost function Import(entries: seq<Entry>, postalEntries: seq<Entry>): Result<seq<Province>, RegionError> {
    match RegionsOf(entries)
    case Failure(e) => Failure(e)
    case Success(read) =>
      ReadIsReady(entries);
      var sorted := SortCodes(read.codes);
      match Build(sorted, read.names, PostalOf(postalEntries))
      case Failure(e) => Failure(e)
      case Success(forest) => if IsComplete(sorted) then Success(forest) else Failure(EMPTY_OR_PARTIAL)
  }

  ghost predicate Accepts(entries: seq<Entry>) {
    && WellRead(entries)
    && PrefixClosed(CodesOf(entries))
    && (forall e | e in entries :: LevelOf(e.0) == 1 ==> CityTypeOf(Text.Trim(e.1)).Some?)
    && IsComplete(CodesOf(entries))
  }

  lemma {:induction false} DesignationsAreRead(entries: seq<Entry>, codes: seq<string>, names: map<string, string>)
    requires NamesAreRead(names, entries) && forall c :: c in codes <==> c in CodesOf(entries)
    ensures (forall c | c in codes :: IsDesignated(c, names))
       <==> forall e | e in entries :: LevelOf(e.0) == 1 ==> CityTypeOf(Text.Trim(e.1)).Some?
  {
    CodesHold(entries);
  }

  lemma {:induction false} LevelsAreKept(a: seq<string>, b: seq<string>)
    requires forall c :: c in a <==> c in b
    ensures IsComplete(a) <==> IsComplete(b)
  {
    forall level: nat
      ensures HasLevel(a, level) <==> HasLevel(b, level)
    {
      if c :| c in a && LevelOf(c) == level {
        assert c in b;
      }
      if c :| c in b && LevelOf(c) == level {
        assert c in a;
      }
    }
  }

  /** The tool emits a tree exactly for the tables that it should accept. */
  lemma {:induction false} ImportsExactly(entries: seq<Entry>, postalEntries: seq<Entry>)
    ensures Import(entries, postalEntries).Success? <==> Accepts(entries)
  {
    ReadsExactly(entries);
    if RegionsOf(entries).Success? {
      var names, codes := RegionsOf(entries).value.names, SortCodes(CodesOf(entries));
      ReadIsReady(entries);
      SortKeeps(CodesOf(entries));
      assert PrefixClosed(codes) <==> PrefixClosed(CodesOf(entries));
      DesignationsAreRead(entries, codes, names);
      BuildsExactlyWhenClosed(codes, names, PostalOf(postalEntries));
      LevelsAreKept(codes, CodesOf(entries));
    }
  }

  /** The emitted tree holds every region of the table once, in code order, under its own prefix and with its own name. */
  lemma {:induction false} ImportedTree(entries: seq<Entry>, postalEntries: seq<Entry>)
    returns (names: map<string, string>)
    requires Import(entries, postalEntries).Success?
    ensures NamesAreRead(names, entries)
    ensures Preorder(Import(entries, postalEntries).value) == SortCodes(CodesOf(entries))
    ensures multiset(Preorder(Import(entries, postalEntries).value)) == multiset(CodesOf(entries))
    ensures ForestHangs(Import(entries, postalEntries).value, names, PostalOf(postalEntries))
  {
    ReadsExactly(entries);
    ReadIsReady(entries);
    SortSorts(CodesOf(entries));
    names := RegionsOf(entries).value.names;
    TreeIsTheSortedCodes(SortCodes(CodesOf(entries)), names, PostalOf(postalEntries));
  }
}
