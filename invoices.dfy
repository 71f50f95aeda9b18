/** The per-file helpers of the invoice upload: the identity key of a file,
    the test for a JSON file, and the normalisation of a parsed file into
    invoice records and preview rows. */
module Invoices {
  import opened Wrappers
  import opened Strings
  import opened Json

  /** A `File` from the picker or a drop. `body` is what `JSON.parse` made of
      the file's text, or `None` when reading or parsing threw. */
  datatype File = File(name: string, mediaType: string, lastModified: int, size: nat, body: Option<Json>)

  /** One line of the preview table. The text fields hold the record's own value
      or the placeholder; `invoicedPrice` is the value handed to `Number(...)`;
      `invoicedWeight` is `None` (shown as `null`) when the record has no weight,
      otherwise the value handed to `Number(...)`, a `null` weight included. */
  datatype PreviewRow = PreviewRow(
    id: Json,
    trackingNumber: Json,
    companyName: Json,
    provider: Json,
    originCountry: Json,
    destinationCountry: Json,
    invoicedPrice: Json,
    invoicedWeight: Option<Json>)

  /** Why a file yields no records: its text is not JSON, or a record lacks the
      nested `shipment.company` object the row mapping reads through. */
  datatype ParseError = NotJson | MalformedRecord

  datatype ParsedInvoices = ParsedInvoices(rows: seq<PreviewRow>, records: seq<Json>)

  const JsonMediaType := "application/json"

  /** `${file.name}-${file.lastModified}-${file.size}` */
  function FileKey(f: File): string
  {
    f.name + "-" + IntToString(f.lastModified) + "-" + NatToString(f.size)
  }

  /** Two files with the same name, modification time and size share a key. */
  lemma SameIdentitySameKey(a: File, b: File)
    requires a.name == b.name && a.lastModified == b.lastModified && a.size == b.size
    ensures FileKey(a) == FileKey(b)
  {
  }

  /** For files modified after the epoch, the key determines name, time and size. */
  lemma FileKeyInjective(a: File, b: File)
    requires a.lastModified >= 0 && b.lastModified >= 0
    requires FileKey(a) == FileKey(b)
    ensures a.name == b.name && a.lastModified == b.lastModified && a.size == b.size
  {
    NatToStringNoDash(a.size);
    NatToStringNoDash(b.size);
    NatToStringNoDash(a.lastModified);
    NatToStringNoDash(b.lastModified);
    SplitAtLastDash(a.name + "-" + IntToString(a.lastModified), NatToString(a.size),
                    b.name + "-" + IntToString(b.lastModified), NatToString(b.size));
    SplitAtLastDash(a.name, NatToString(a.lastModified), b.name, NatToString(b.lastModified));
    NatToStringInjective(a.size, b.size);
    NatToStringInjective(a.lastModified, b.lastModified);
  }

  /** A negative modification time lets two different files share a key:
      "x-" at time 1 and "x" at time -1, both of size 2, are keyed "x--1-2". */
  lemma NegativeTimeKeyCollision(body: Option<Json>)
    ensures FileKey(File("x-", "", 1, 2, body)) == FileKey(File("x", "", -1, 2, body)) == "x--1-2"
  {
    assert NatToString(1) == "1";
    assert NatToString(2) == "2";
  }

  /** The media type is JSON, or the lower-cased name ends in ".json". */
  predicate IsJsonFile(f: File)
  {
    f.mediaType == JsonMediaType || EndsWith(ToLower(f.name), ".json")
  }

  /** The extension test ignores the case of the letters: "X.JSON" and
      "x.Json" pass, whatever the media type. */
  lemma IsJsonFileCharacterised(f: File)
    ensures IsJsonFile(f) <==>
      f.mediaType == JsonMediaType ||
      (|f.name| >= 5 &&
       var n := |f.name|;
       f.name[n - 5] == '.' &&
       f.name[n - 4] in "jJ" && f.name[n - 3] in "sS" &&
       f.name[n - 2] in "oO" && f.name[n - 1] in "nN")
  {
    var lower := ToLower(f.name);
    var n := |f.name|;
    if n >= 5 {
      assert lower[n - 5..] == [lower[n - 5], lower[n - 4], lower[n - 3], lower[n - 2], lower[n - 1]];
    }
  }

  lemma UpperCaseExtensionAccepted(stem: string, mediaType: string, lastModified: int, size: nat, body: Option<Json>)
    ensures IsJsonFile(File(stem + ".JSON", mediaType, lastModified, size, body))
  {
    IsJsonFileCharacterised(File(stem + ".JSON", mediaType, lastModified, size, body));
  }

  /** An array is the record list itself; any other value is a one-record list. */
  function RecordsOf(parsed: Json): (records: seq<Json>)
    ensures parsed.JArray? ==> records == parsed.items
    ensures !parsed.JArray? ==> records == [parsed]
  {
    if parsed.JArray? then parsed.items else [parsed]
  }

  /** The nested objects every row reads through: a record object with a
      `shipment` object holding a non-null `company`. */
  predicate HasShipmentCompany(raw: Json)
  {
    raw.JObject? && "shipment" in raw.members &&
    var shipment := raw.members["shipment"];
    shipment.JObject? && "company" in shipment.members && shipment.members["company"] != JNull
  }

  function ShipmentOf(raw: Json): Json
    requires HasShipmentCompany(raw)
  {
    raw.members["shipment"]
  }

  function CompanyOf(raw: Json): Json
    requires HasShipmentCompany(raw)
  {
    ShipmentOf(raw).members["company"]
  }

  /** `file-${file.name}-row-${index}` */
  function DefaultRowId(fileName: string, index: nat): string
  {
    "file-" + fileName + "-row-" + NatToString(index)
  }

  /** The row mapping applied to record `index` of a file. Reading through a
      missing `shipment` or `company` throws, which fails the whole file. */
  function PreviewRowOf(fileName: string, raw: Json, index: nat): (r: Result<PreviewRow, ParseError>)
    ensures r.Success? <==> HasShipmentCompany(raw)
    ensures r.Failure? ==> r.error == MalformedRecord
  {
    match Member(Some(raw), "shipment")
    case Failure(_) => Failure(MalformedRecord)
    case Success(shipment) =>
      match Member(shipment, "company")
      case Failure(_) => Failure(MalformedRecord)
      case Success(company) =>
        match Member(company, "name")
        case Failure(_) => Failure(MalformedRecord)
        case Success(companyName) =>
          var weight := Member(Some(raw), "invoicedWeight").value;
          Success(PreviewRow(
            id := Coalesce(Member(Some(raw), "id").value, JString(DefaultRowId(fileName, index))),
            trackingNumber := Coalesce(Member(shipment, "trackingNumber").value, JString("N/A")),
            companyName := Coalesce(companyName, JString("Unknown")),
            provider := Coalesce(Member(shipment, "provider").value, JString("N/A")),
            originCountry := Coalesce(Member(shipment, "originCountry").value, JString("-")),
            destinationCountry := Coalesce(Member(shipment, "destinationCountry").value, JString("-")),
            invoicedPrice := Coalesce(Member(Some(raw), "invoicedPrice").value, JNumber(0.0)),
            invoicedWeight := if weight != None then Some(weight.value) else None))
  }

  /** The placeholders of the preview: "N/A" for a missing tracking number or
      carrier, "Unknown" for a missing company name, "-" for a missing
      country, 0 for a missing price, a generated id for a missing id; a
      missing weight is `null` while a `null` weight is kept for `Number(...)`.
      Values that are present are shown as they are. */
  lemma PreviewRowDefaults(fileName: string, raw: Json, index: nat)
    requires HasShipmentCompany(raw)
    ensures var row := PreviewRowOf(fileName, raw, index).value;
      (Supplied(raw, "id").None? ==> row.id == JString(DefaultRowId(fileName, index))) &&
      (Supplied(raw, "id").Some? ==> row.id == Supplied(raw, "id").value) &&
      (Supplied(ShipmentOf(raw), "trackingNumber").None? ==> row.trackingNumber == JString("N/A")) &&
      (Supplied(ShipmentOf(raw), "trackingNumber").Some? ==> row.trackingNumber == Supplied(ShipmentOf(raw), "trackingNumber").value) &&
      (Supplied(CompanyOf(raw), "name").None? ==> row.companyName == JString("Unknown")) &&
      (Supplied(CompanyOf(raw), "name").Some? ==> row.companyName == Supplied(CompanyOf(raw), "name").value) &&
      (Supplied(ShipmentOf(raw), "provider").None? ==> row.provider == JString("N/A")) &&
      (Supplied(ShipmentOf(raw), "provider").Some? ==> row.provider == Supplied(ShipmentOf(raw), "provider").value) &&
      (Supplied(ShipmentOf(raw), "originCountry").None? ==> row.originCountry == JString("-")) &&
      (Supplied(ShipmentOf(raw), "originCountry").Some? ==> row.originCountry == Supplied(ShipmentOf(raw), "originCountry").value) &&
      (Supplied(ShipmentOf(raw), "destinationCountry").None? ==> row.destinationCountry == JString("-")) &&
      (Supplied(ShipmentOf(raw), "destinationCountry").Some? ==> row.destinationCountry == Supplied(ShipmentOf(raw), "destinationCountry").value) &&
      (Supplied(raw, "invoicedPrice").None? ==> row.invoicedPrice == JNumber(0.0)) &&
      (Supplied(raw, "invoicedPrice").Some? ==> row.invoicedPrice == Supplied(raw, "invoicedPrice").value) &&
      (row.invoicedWeight.None? <==> "invoicedWeight" !in raw.members) &&
      (row.invoicedWeight.Some? ==> row.invoicedWeight.value == raw.members["invoicedWeight"])
  {
  }

  /** `records.map(...)`: one row per record, row `i` built from record `i`;
      the mapping throws, and no rows result, as soon as one record is malformed. */
  function PreviewRows(fileName: string, records: seq<Json>): (r: Result<seq<PreviewRow>, ParseError>)
    ensures r.Success? <==> forall i :: 0 <= i < |records| ==> HasShipmentCompany(records[i])
    ensures r.Failure? ==> r.error == MalformedRecord
    ensures r.Success? ==> |r.value| == |records|
    decreases |records|
  {
    if records == [] then Success([])
    else
      var last := |records| - 1;
      match PreviewRows(fileName, records[..last])
      case Failure(e) => Failure(e)
      case Success(prefix) =>
        match PreviewRowOf(fileName, records[last], last)
        case Failure(e) => Failure(e)
        case Success(row) => Success(prefix + [row])
  }

  /** Row `i` is the row mapping applied to record `i`, so the rows follow
      the order of the records. */
  lemma {:induction false} PreviewRowsPointwise(fileName: string, records: seq<Json>)
    requires PreviewRows(fileName, records).Success?
    ensures forall i :: 0 <= i < |records| ==>
      PreviewRowOf(fileName, records[i], i) == Success(PreviewRows(fileName, records).value[i])
    decreases |records|
  {
    if records != [] {
      var last := |records| - 1;
      PreviewRowsPointwise(fileName, records[..last]);
      assert forall i :: 0 <= i < last ==> records[..last][i] == records[i];
    }
  }

  /** `parseInvoiceFile`: the records are the normalised parsed value itself,
      and the rows are derived from them one for one. */
  function ParseInvoiceFile(file: File): (r: Result<ParsedInvoices, ParseError>)
    ensures r.Failure? && r.error == NotJson <==> file.body.None?
    ensures r.Success? ==> r.value.records == RecordsOf(file.body.value)
  {
    match file.body
    case None => Failure(NotJson)
    case Some(parsed) =>
      var records := RecordsOf(parsed);
      match PreviewRows(file.name, records)
      case Failure(e) => Failure(e)
      case Success(rows) => Success(ParsedInvoices(rows, records))
  }

  /** A file is accepted exactly when it holds JSON and every record has a
      shipment company; otherwise the error says which check failed. An
      accepted file has one row per record. */
  lemma ParseInvoiceFileOutcome(file: File)
    ensures ParseInvoiceFile(file).Success? <==>
      file.body.Some? && forall i :: 0 <= i < |RecordsOf(file.body.value)| ==> HasShipmentCompany(RecordsOf(file.body.value)[i])
    ensures file.body.Some? && ParseInvoiceFile(file).Failure? ==> ParseInvoiceFile(file).error == MalformedRecord
    ensures ParseInvoiceFile(file).Success? ==> |ParseInvoiceFile(file).value.rows| == |ParseInvoiceFile(file).value.records|
  {
  }

  /** Row `i` of a parsed file is the row mapping applied to record `i`. */
  lemma ParsedRowsFollowRecords(file: File)
    requires ParseInvoiceFile(file).Success?
    ensures var p := ParseInvoiceFile(file).value;
      forall i :: 0 <= i < |p.records| ==> PreviewRowOf(file.name, p.records[i], i) == Success(p.rows[i])
  {
    PreviewRowsPointwise(file.name, RecordsOf(file.body.value));
  }

  /** A file holding one well-formed record object gives exactly one row. */
  lemma SingleObjectGivesOneRow(file: File)
    requires file.body.Some? && !file.body.value.JArray? && HasShipmentCompany(file.body.value)
    ensures ParseInvoiceFile(file).Success?
    ensures ParseInvoiceFile(file).value.records == [file.body.value]
    ensures |ParseInvoiceFile(file).value.rows| == 1
  {
    ParseInvoiceFileOutcome(file);
  }

  /** A file holding an array of N well-formed records gives N rows, in order. */
  lemma ArrayGivesOneRowPerRecord(file: File)
    requires file.body.Some? && file.body.value.JArray?
    requires forall i :: 0 <= i < |file.body.value.items| ==> HasShipmentCompany(file.body.value.items[i])
    ensures ParseInvoiceFile(file).Success?
    ensures ParseInvoiceFile(file).value.records == file.body.value.items
    ensures |ParseInvoiceFile(file).value.rows| == |file.body.value.items|
  {
    ParseInvoiceFileOutcome(file);
  }
}
