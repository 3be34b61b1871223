/** Mapping picked products to legacy ids, and splitting a selection into mapped and unmapped kinds. */
module V1Mapping {
  import opened Basics

  datatype V1Product = V1Product(id: string, brand: string, model: string, partNumber: string)
  datatype V2Product = V2Product(id: string, brand: string, partNumber: string)

  /** The reviewed table and the two normalisations (lower-casing and trimming of brands; lower-casing
      and dropping of all but letters and digits of part numbers). */
  datatype Rules = Rules(reviewed: map<string, string>, brandKey: string -> string, mpnKey: string -> string)

  datatype MatchKind = ExplicitReviewedMapping | UniqueMpnMatch

  datatype Mapping = Mapping(id: string, how: MatchKind)

  predicate Agrees(r: Rules, v2: V2Product, p: V1Product) {
    && r.brandKey(p.brand) == r.brandKey(v2.brand)
    && r.mpnKey(v2.partNumber) in [r.mpnKey(p.partNumber), r.mpnKey(p.model), r.mpnKey(p.id)]
  }

  function Matches(r: Rules, v2: V2Product, list: seq<V1Product>): seq<V1Product> {
    if list == [] then []
    else (if Agrees(r, v2, list[0]) then [list[0]] else []) + Matches(r, v2, list[1..])
  }

  predicate Reviewed(r: Rules, v2: V2Product) {
    v2.id in r.reviewed && r.reviewed[v2.id] != ""
  }

  /** `getV1Mapping` */
  function GetV1Mapping(r: Rules, v2: V2Product, list: seq<V1Product>): Option<Mapping> {
    if Reviewed(r, v2) then Some(Mapping(r.reviewed[v2.id], ExplicitReviewedMapping))
    else if r.mpnKey(v2.partNumber) == "" || r.brandKey(v2.brand) == "" then None
    else
      var ms := Matches(r, v2, list);
      if |ms| == 1 then Some(Mapping(ms[0].id, UniqueMpnMatch)) else None
  }

  lemma {:induction false} MatchesCount(r: Rules, v2: V2Product, list: seq<V1Product>, p: V1Product)
    ensures multiset(Matches(r, v2, list))[p] == if Agrees(r, v2, p) then multiset(list)[p] else 0
  {
    if list != [] {
      MatchesCount(r, v2, list[1..], p);
      assert list == [list[0]] + list[1..];
    }
  }

  lemma {:induction false} MatchesAt(r: Rules, v2: V2Product, list: seq<V1Product>)
    ensures |Matches(r, v2, list)| == 0 <==> forall i :: 0 <= i < |list| ==> !Agrees(r, v2, list[i])
    ensures |Matches(r, v2, list)| == 1 <==> exists i :: OnlyMatch(r, v2, list, i)
    ensures forall i :: OnlyMatch(r, v2, list, i) ==> Matches(r, v2, list) == [list[i]]
  {
    if list != [] {
      var tail := list[1..];
      MatchesAt(r, v2, tail);
      if Agrees(r, v2, list[0]) {
        if |Matches(r, v2, tail)| == 0 { assert OnlyMatch(r, v2, list, 0); }
        forall i | OnlyMatch(r, v2, list, i) ensures Matches(r, v2, list) == [list[i]] {
          assert i == 0;
          assert forall j :: 0 <= j < |tail| ==> tail[j] == list[j + 1];
        }
      } else {
        if i :| OnlyMatch(r, v2, tail, i) {
          assert OnlyMatch(r, v2, list, i + 1);
        }
        forall i | OnlyMatch(r, v2, list, i) ensures Matches(r, v2, list) == [list[i]] {
          assert OnlyMatch(r, v2, tail, i - 1);
        }
      }
    }
  }

  ghost predicate OnlyMatch(r: Rules, v2: V2Product, list: seq<V1Product>, i: int) {
    && 0 <= i < |list| && SameBrandAndNumber(r, v2, list[i])
    && forall j :: 0 <= j < |list| && j != i ==> !SameBrandAndNumber(r, v2, list[j])
  }

  /** The brands agree, and the part number agrees with the entry's part number, model or id. */
  ghost predicate SameBrandAndNumber(r: Rules, v2: V2Product, p: V1Product) {
    var number := r.mpnKey(v2.partNumber);
    && r.brandKey(v2.brand) == r.brandKey(p.brand)
    && (number == r.mpnKey(p.partNumber) || number == r.mpnKey(p.model) || number == r.mpnKey(p.id))
  }

  /** A reviewed mapping wins over everything else, unless it is blank. */
  lemma ReviewedWins(r: Rules, v2: V2Product, list: seq<V1Product>, id: string)
    ensures GetV1Mapping(r, v2, list) == Some(Mapping(id, ExplicitReviewedMapping))
            <==> v2.id in r.reviewed && r.reviewed[v2.id] == id && id != ""
  {
  }

  /** A part-number match is returned exactly when the product is not reviewed, has a brand and a part
      number, and exactly one list entry agrees with it; it is that entry's id. */
  lemma MpnMatchIffUnique(r: Rules, v2: V2Product, list: seq<V1Product>, id: string)
    ensures GetV1Mapping(r, v2, list) == Some(Mapping(id, UniqueMpnMatch))
            <==> && !(v2.id in r.reviewed && r.reviewed[v2.id] != "")
                 && r.mpnKey(v2.partNumber) != "" && r.brandKey(v2.brand) != ""
                 && exists i :: OnlyMatch(r, v2, list, i) && list[i].id == id
  {
    MatchesAt(r, v2, list);
  }

  lemma SingletonMultiset(xs: seq<V1Product>, ys: seq<V1Product>)
    requires multiset(xs) == multiset(ys)
    ensures |xs| == |ys| && (|xs| == 1 ==> xs == ys)
  {
    assert |multiset(xs)| == |xs| && |multiset(ys)| == |ys|;
    if |xs| == 1 {
      assert xs[0] in multiset(ys);
    }
  }

  /** The order of the list does not matter. */
  lemma MappingIgnoresOrder(r: Rules, v2: V2Product, list: seq<V1Product>, other: seq<V1Product>)
    requires multiset(list) == multiset(other)
    ensures GetV1Mapping(r, v2, list) == GetV1Mapping(r, v2, other)
  {
    forall p ensures multiset(Matches(r, v2, list))[p] == multiset(Matches(r, v2, other))[p] {
      MatchesCount(r, v2, list, p);
      MatchesCount(r, v2, other, p);
    }
    assert multiset(Matches(r, v2, list)) == multiset(Matches(r, v2, other));
    SingletonMultiset(Matches(r, v2, list), Matches(r, v2, other));
  }

  function MappingFor(r: Rules, v1: map<string, seq<V1Product>>, kind: string, product: V2Product): Option<Mapping> {
    GetV1Mapping(r, product, if kind in v1 then v1[kind] else [])
  }

  /** Of the kinds seen so far, the selected ones are mapped or listed as unmapped, never both. */
  ghost predicate Split(r: Rules, selected: map<string, V2Product>, v1: map<string, seq<V1Product>>,
                        seen: seq<string>, mapped: map<string, string>, unmapped: seq<string>)
  {
    && (forall k :: k in mapped <==> k in seen && k in selected && MappingFor(r, v1, k, selected[k]).Some?)
    && (forall k :: k in unmapped <==> k in seen && k in selected && MappingFor(r, v1, k, selected[k]).None?)
    && (forall k :: k in mapped ==> k in selected && MappingFor(r, v1, k, selected[k]).Some?
                                    && mapped[k] == MappingFor(r, v1, k, selected[k]).value.id)
  }

  /** `mappedSelection` over the fixed order of kinds. */
  method MapSelection(r: Rules, order: seq<string>, selected: map<string, V2Product>, v1: map<string, seq<V1Product>>)
    returns (mapped: map<string, string>, unmapped: seq<string>)
    ensures Split(r, selected, v1, order, mapped, unmapped)
    ensures forall k :: k in mapped || k in unmapped <==> k in order && k in selected
    ensures forall k :: !(k in mapped && k in unmapped)
    ensures forall k :: k in mapped && k in v1 ==>
              k in selected && exists how :: GetV1Mapping(r, selected[k], v1[k]) == Some(Mapping(mapped[k], how))
    ensures forall k :: k in unmapped && k in v1 ==> k in selected && GetV1Mapping(r, selected[k], v1[k]) == None
    ensures forall k :: k in selected && k in order && k !in v1 ==>
              (k in mapped <==> GetV1Mapping(r, selected[k], []).Some?)
  {
    mapped, unmapped := map[], [];
    for n := 0 to |order|
      invariant Split(r, selected, v1, order[..n], mapped, unmapped)
    {
      var kind := order[n];
      assert order[..n + 1] == order[..n] + [kind];
      if kind in selected {
        var mapping := MappingFor(r, v1, kind, selected[kind]);
        if mapping.Some? {
          mapped := mapped[kind := mapping.value.id];
        } else {
          unmapped := unmapped + [kind];
        }
      }
    }
    assert order[..|order|] == order;
    forall k | k in mapped && k in v1
      ensures k in selected && exists how :: GetV1Mapping(r, selected[k], v1[k]) == Some(Mapping(mapped[k], how))
    {
      var mapping := GetV1Mapping(r, selected[k], v1[k]).value;
      assert mapping == Mapping(mapped[k], mapping.how);
    }
  }
}
