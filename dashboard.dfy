/** The dashboard page: the fixed list of demo shipments and the company-name
    filter typed into the search box above the cards. */
module Dashboard {
  import opened Wrappers
  import opened Sequences
  import opened Strings

  datatype Mode = Export | Import

  /** One demo shipment card. */
  datatype ShipmentMock = ShipmentMock(
    id: string,
    trackingNumber: string,
    companyName: string,
    provider: string,
    price: real,
    currency: string,
    date: string,
    originCountry: string,
    destinationCountry: string,
    mode: Mode,
    invoiceCount: Option<nat>)

  /** `MOCK_SHIPMENTS`, the list the page shows. */
  const MockShipments: seq<ShipmentMock> := [
    ShipmentMock("1", "885335999184", "Acme Corporation s.r.o.", "FedEx", 457.24, "Kč",
      "9. 10. 2025", "CZ", "UK", Export, Some(1)),
    ShipmentMock("2", "885335999185", "Acme Corporation s.r.o.", "FedEx", 457.24, "Kč",
      "9. 10. 2025", "UK", "CZ", Import, Some(2)),
    ShipmentMock("3", "885335999186", "Beta Logistics a.s.", "GLS", 812.0, "Kč",
      "10. 10. 2025", "CZ", "DE", Export, Some(3))
  ]

  /** The filter's test for one shipment: an empty filter lets everything
      through, any other filter needs to occur in the company name, both
      lower-cased. */
  predicate Keeps(companyFilter: string, s: ShipmentMock)
  {
    companyFilter != "" ==> Contains(ToLower(s.companyName), ToLower(companyFilter))
  }

  /** `filteredShipments`: the shipments the filter keeps, in their order. */
  function FilteredShipments(companyFilter: string, shipments: seq<ShipmentMock>): (r: seq<ShipmentMock>)
    ensures forall s :: s in r <==> s in shipments && Keeps(companyFilter, s)
    ensures forall s :: s in shipments && Keeps(companyFilter, s) ==> multiset(r)[s] == multiset(shipments)[s]
    ensures IsSubsequence(r, shipments)
    ensures |r| <= |shipments|
  {
    FilterMembers(s => Keeps(companyFilter, s), shipments);
    FilterCount(s => Keeps(companyFilter, s), shipments);
    FilterSubsequence(s => Keeps(companyFilter, s), shipments);
    SubsequenceLength(Filter(s => Keeps(companyFilter, s), shipments), shipments);
    Filter(s => Keeps(companyFilter, s), shipments)
  }

  /** A non-empty filter keeps a shipment exactly when the lower-cased filter
      occurs at some position of the lower-cased company name. */
  lemma KeepsIffOccurrence(companyFilter: string, s: ShipmentMock)
    ensures Keeps(companyFilter, s) <==>
      companyFilter == "" || exists at: nat :: OccursAt(ToLower(s.companyName), ToLower(companyFilter), at)
  {
    ContainsIffOccurs(ToLower(s.companyName), ToLower(companyFilter));
  }

  /** The "no shipments" message is shown exactly when the filter keeps nothing. */
  predicate ShowsEmptyMessage(companyFilter: string, shipments: seq<ShipmentMock>)
  {
    |FilteredShipments(companyFilter, shipments)| == 0
  }

  lemma EmptyMessageIffNoMatch(companyFilter: string, shipments: seq<ShipmentMock>)
    ensures ShowsEmptyMessage(companyFilter, shipments) <==>
      forall s :: s in shipments ==> !Keeps(companyFilter, s)
  {
    var r := FilteredShipments(companyFilter, shipments);
    if r != [] {
      assert r[0] in r;
    }
  }

  /** With an empty search box every shipment is shown, in its order. */
  lemma EmptyFilterKeepsAll(shipments: seq<ShipmentMock>)
    ensures FilteredShipments("", shipments) == shipments
  {
    FilterKeepsAll(s => Keeps("", s), shipments);
  }

  /** Two filters that differ only in the case of their letters show the same
      shipments. */
  lemma FilterIgnoresCase(f: string, g: string, shipments: seq<ShipmentMock>)
    requires ToLower(f) == ToLower(g)
    ensures FilteredShipments(f, shipments) == FilteredShipments(g, shipments)
  {
    assert |f| == |ToLower(f)| == |ToLower(g)| == |g|;
    FilterCongruence(s => Keeps(f, s), s => Keeps(g, s), shipments);
  }

  /** A filter that is part of a company name keeps that company's shipments. */
  lemma FilterKeepsItsCompany(companyFilter: string, s: ShipmentMock, shipments: seq<ShipmentMock>)
    requires s in shipments
    requires Contains(ToLower(s.companyName), ToLower(companyFilter))
    ensures s in FilteredShipments(companyFilter, shipments)
  {
  }

  /** Typing "BETA" on the page leaves exactly the Beta Logistics shipment. */
  lemma BetaFilterOnDemoData()
    ensures FilteredShipments("BETA", MockShipments) == [MockShipments[2]]
  {
    BetaQueryLowered();
    AcmeNotMatched(MockShipments[0]);
    AcmeNotMatched(MockShipments[1]);
    BetaMatched(MockShipments[2]);
    assert MockShipments[1..][1..] == [MockShipments[2]];
    assert MockShipments[1..][1..][1..] == [];
  }

  lemma BetaQueryLowered()
    ensures ToLower("BETA") == "beta"
  {
    var lowered := ToLower("BETA");
    assert lowered[0] == 'b' && lowered[1] == 'e' && lowered[2] == 't' && lowered[3] == 'a';
  }

  lemma AcmeNotMatched(s: ShipmentMock)
    requires s.companyName == "Acme Corporation s.r.o."
    ensures !Keeps("BETA", s)
  {
    BetaQueryLowered();
    LacksLetterB(s.companyName);
    NoFirstLetterNoMatch(ToLower(s.companyName), "beta");
  }

  lemma BetaMatched(s: ShipmentMock)
    requires s.companyName == "Beta Logistics a.s."
    ensures Keeps("BETA", s)
  {
    BetaQueryLowered();
    var beta := ToLower(s.companyName);
    assert beta[..4] == "beta" by {
      assert beta[..4][0] == 'b' && beta[..4][1] == 'e' && beta[..4][2] == 't' && beta[..4][3] == 'a';
    }
    assert StartsWith(beta, "beta");
  }

  /** No letter of "Acme Corporation s.r.o." lower-cases to 'b'. */
  lemma LacksLetterB(name: string)
    requires name == "Acme Corporation s.r.o."
    ensures forall i :: 0 <= i < |ToLower(name)| ==> ToLower(name)[i] != 'b'
  {
    forall i | 0 <= i < |name| ensures LowerChar(name[i]) != 'b' {
      assert name[i] in "Acme Corporation s.r.o.";
    }
  }

  /** A string none of whose characters is the first character of `sub`
      does not include the non-empty `sub`. */
  lemma {:induction false} NoFirstLetterNoMatch(s: string, sub: string)
    requires sub != []
    requires forall i :: 0 <= i < |s| ==> s[i] != sub[0]
    ensures !Contains(s, sub)
    decreases |s|
  {
    if s != [] {
      if |sub| <= |s| {
        assert s[..|sub|][0] == s[0];
      }
      assert !StartsWith(s, sub);
      NoFirstLetterNoMatch(s[1..], sub);
    } else {
      assert !StartsWith(s, sub);
    }
  }
}
