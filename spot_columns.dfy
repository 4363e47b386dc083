/**
 * The pure logic of two cells of the spot table in
 * src/features/spots/SpotColumns.ts: the vehicle cell lists the
 * abbreviations of the vehicle types a spot takes, in a fixed order and
 * separated by ", ", or a dash when it takes none; the dimension cell
 * shows "length x width", "length pi" or a dash.
 */
module SpotColumns {
  import opened Wrappers
  import opened SpotTypes
  import SpotFilters
  import opened Sequences

  /** The em dash the cells show for "nothing". */
  const Dash: string := "\U{2014}"

  /** vehicleAbbreviations. */
  function VehicleAbbreviation(v: VehicleType): (a: string)
    ensures 1 <= |a| <= 3 && ',' !in a && a[0] != Dash[0]
  {
    match v
    case Motorise => "Mot"
    case Fifthwheel => "FW"
    case Roulotte => "Rou"
    case CampeurPorte => "CP"
    case TenteRoulotte => "TR"
    case Tente => "T"
  }

  /** allVehicleTypes: the column's display order. */
  const ColumnVehicleTypes: seq<VehicleType> := [Motorise, Fifthwheel, Roulotte, CampeurPorte, TenteRoulotte, Tente]

  /** The six abbreviations are pairwise distinct, and the column lists
      each vehicle type once, in the order of the filters module. */
  lemma AbbreviationsDistinct(v: VehicleType, w: VehicleType)
    ensures VehicleAbbreviation(v) == VehicleAbbreviation(w) ==> v == w
    ensures ColumnVehicleTypes == SpotFilters.AllVehicleTypes && v in ColumnVehicleTypes
  {
  }

  // ---------------------------------------------------------------------
  // The vehicle cell
  // ---------------------------------------------------------------------

  /** allVehicleTypes.filter(vt => spotAcceptsVehicleType(spot, vt)) on a
      list of types. */
  function AcceptedTypes(spot: Spot, types: seq<VehicleType>): (r: seq<VehicleType>)
    ensures forall v :: v in r <==> v in types && SpotFilters.AcceptsVehicleType(spot, v)
    ensures IsSubsequence(r, types)
  {
    if types == [] then []
    else
      var rest := AcceptedTypes(spot, types[1..]);
      assert types == [types[0]] + types[1..];
      if SpotFilters.AcceptsVehicleType(spot, types[0]) then
        assert ([types[0]] + rest)[1..] == rest;
        [types[0]] + rest
      else rest
  }

  /** .map(vt => vehicleAbbreviations[vt]). */
  function Abbreviations(types: seq<VehicleType>): (r: seq<string>)
    ensures |r| == |types| && forall i :: 0 <= i < |types| ==> r[i] == VehicleAbbreviation(types[i])
  {
    if types == [] then [] else [VehicleAbbreviation(types[0])] + Abbreviations(types[1..])
  }

  /** Array.prototype.join: nothing for no parts, otherwise the text starts
      with the first part. */
  function Join(parts: seq<string>, sep: string): (r: string)
    ensures parts == [] ==> r == []
    ensures |parts| >= 1 ==> |r| >= |parts[0]| && r[..|parts[0]|] == parts[0]
  {
    if parts == [] then ""
    else if |parts| == 1 then parts[0]
    else parts[0] + sep + Join(parts[1..], sep)
  }

  /** The vehicle cell's text. */
  function VehicleSummary(spot: Spot): string {
    var abbrs := Abbreviations(AcceptedTypes(spot, ColumnVehicleTypes));
    if |abbrs| == 0 then Dash else Join(abbrs, ", ")
  }

  /** The cell is the dash exactly when the spot takes no vehicle type. */
  lemma DashWhenNothingAccepted(spot: Spot)
    ensures VehicleSummary(spot) == Dash <==> forall v :: !SpotFilters.AcceptsVehicleType(spot, v)
  {
    var accepted := AcceptedTypes(spot, ColumnVehicleTypes);
    var abbrs := Abbreviations(accepted);
    if |abbrs| > 0 {
      assert accepted[0] in accepted;
      assert Join(abbrs, ", ")[0] == abbrs[0][0];
    } else {
      forall v ensures !SpotFilters.AcceptsVehicleType(spot, v) {
        AbbreviationsDistinct(v, v);
      }
    }
  }

  // ---------------------------------------------------------------------
  // The join can be undone
  // ---------------------------------------------------------------------

  /** Parts that are not empty and hold no comma. */
  predicate CommaFreeParts(parts: seq<string>) {
    forall i :: 0 <= i < |parts| ==> |parts[i]| >= 1 && ',' !in parts[i]
  }

  /** A joined text is its first part followed by nothing or by a comma. */
  lemma JoinHead(parts: seq<string>)
    requires |parts| >= 1
    ensures var s := Join(parts, ", ");
            var tail := s[|parts[0]|..];
            |s| >= |parts[0]| && s[..|parts[0]|] == parts[0]
            && (|parts| == 1 ==> tail == [])
            && (|parts| > 1 ==> tail == ", " + Join(parts[1..], ", "))
  {
    var s := Join(parts, ", ");
    if |parts| > 1 {
      assert s == parts[0] + (", " + Join(parts[1..], ", "));
    }
  }

  /** Two texts that each start with a comma-free word followed by nothing
      or a comma split at the same place. */
  lemma SameFirstWord(x: string, t1: string, y: string, t2: string)
    requires ',' !in x && ',' !in y
    requires t1 == [] || t1[0] == ','
    requires t2 == [] || t2[0] == ','
    requires x + t1 == y + t2
    ensures x == y && t1 == t2
  {
    assert x == (x + t1)[..|x|] && y == (y + t2)[..|y|];
    assert t1 == (x + t1)[|x|..] && t2 == (y + t2)[|y|..];
  }

  /** Joining comma-free parts with ", " loses nothing: equal texts come
      from equal lists of parts. */
  lemma {:induction false} JoinInjective(xs: seq<string>, ys: seq<string>)
    requires CommaFreeParts(xs) && CommaFreeParts(ys)
    requires Join(xs, ", ") == Join(ys, ", ")
    ensures xs == ys
  {
    if xs == [] || ys == [] {
      if xs != [] {
        JoinHead(xs);
      } else if ys != [] {
        JoinHead(ys);
      }
    } else {
      JoinHead(xs);
      JoinHead(ys);
      var s := Join(xs, ", ");
      SameFirstWord(xs[0], s[|xs[0]|..], ys[0], s[|ys[0]|..]);
      if |xs| > 1 && |ys| > 1 {
        assert (", " + Join(xs[1..], ", "))[2..] == Join(xs[1..], ", ");
        assert (", " + Join(ys[1..], ", "))[2..] == Join(ys[1..], ", ");
        JoinInjective(xs[1..], ys[1..]);
        assert xs == [xs[0]] + xs[1..] && ys == [ys[0]] + ys[1..];
      }
    }
  }

  /** The accepted types are determined by which types the spot accepts. */
  lemma {:induction false} AcceptedTypesDetermined(s1: Spot, s2: Spot, types: seq<VehicleType>)
    requires forall v :: SpotFilters.AcceptsVehicleType(s1, v) <==> SpotFilters.AcceptsVehicleType(s2, v)
    ensures AcceptedTypes(s1, types) == AcceptedTypes(s2, types)
  {
    if types != [] {
      AcceptedTypesDetermined(s1, s2, types[1..]);
    }
  }

  lemma {:induction false} AbbreviationsInjective(xs: seq<VehicleType>, ys: seq<VehicleType>)
    requires Abbreviations(xs) == Abbreviations(ys)
    ensures xs == ys
  {
    if xs != [] {
      AbbreviationsDistinct(xs[0], ys[0]);
      assert Abbreviations(xs[1..]) == Abbreviations(xs)[1..];
      assert Abbreviations(ys[1..]) == Abbreviations(ys)[1..];
      AbbreviationsInjective(xs[1..], ys[1..]);
      assert xs == [xs[0]] + xs[1..] && ys == [ys[0]] + ys[1..];
    }
  }

  lemma AbbreviationsCommaFree(types: seq<VehicleType>)
    ensures CommaFreeParts(Abbreviations(types))
  {
  }

  /** The vehicle cell tells exactly which types a spot takes: two spots
      show the same text if and only if they accept the same vehicle
      types. */
  lemma SummaryDeterminesAcceptedTypes(s1: Spot, s2: Spot)
    ensures VehicleSummary(s1) == VehicleSummary(s2)
        <==> forall v :: SpotFilters.AcceptsVehicleType(s1, v) <==> SpotFilters.AcceptsVehicleType(s2, v)
  {
    var a1, a2 := AcceptedTypes(s1, ColumnVehicleTypes), AcceptedTypes(s2, ColumnVehicleTypes);
    if VehicleSummary(s1) == VehicleSummary(s2) {
      DashWhenNothingAccepted(s1);
      DashWhenNothingAccepted(s2);
      if VehicleSummary(s1) != Dash {
        AbbreviationsCommaFree(a1);
        AbbreviationsCommaFree(a2);
        JoinInjective(Abbreviations(a1), Abbreviations(a2));
        AbbreviationsInjective(a1, a2);
        forall v ensures SpotFilters.AcceptsVehicleType(s1, v) <==> SpotFilters.AcceptsVehicleType(s2, v) {
          AbbreviationsDistinct(v, v);
        }
      }
    } else {
      if forall v :: SpotFilters.AcceptsVehicleType(s1, v) <==> SpotFilters.AcceptsVehicleType(s2, v) {
        AcceptedTypesDetermined(s1, s2, ColumnVehicleTypes);
      }
    }
  }

  // ---------------------------------------------------------------------
  // The dimension cell
  // ---------------------------------------------------------------------

  /** JavaScript truthiness of a nullable number: null and 0 are false. */
  predicate Truthy(x: Option<real>) {
    x.Some? && x.value != 0.0
  }

  /** The dimension cell. `render` is the number-to-text conversion of the
      template literal. */
  function DimensionsText(longueur: Option<real>, largeur: Option<real>, render: real -> string): (r: string)
    ensures r == Dash <==> !Truthy(longueur)
    ensures Truthy(longueur) && Truthy(largeur) ==> r == render(longueur.value) + " x " + render(largeur.value)
    ensures Truthy(longueur) && !Truthy(largeur) ==> r == render(longueur.value) + " pi"
  {
    if Truthy(longueur) && Truthy(largeur) then render(longueur.value) + " x " + render(largeur.value)
    else if Truthy(longueur) then render(longueur.value) + " pi"
    else Dash
  }

  /** A missing or zero width is shown the same way as no width. */
  lemma DimensionsDash(longueur: Option<real>, largeur: Option<real>, render: real -> string)
    ensures DimensionsText(longueur, Some(0.0), render) == DimensionsText(longueur, None, render)
    ensures !Truthy(largeur) ==> DimensionsText(longueur, largeur, render) == DimensionsText(longueur, None, render)
  {
  }

  /** The width is shown only beside a length: a spot with a width and no
      length shows the dash. */
  lemma WidthNeedsLength(largeur: Option<real>, render: real -> string)
    ensures DimensionsText(None, largeur, render) == Dash
    ensures DimensionsText(Some(0.0), largeur, render) == Dash
  {
  }
}
