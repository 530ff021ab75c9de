/** The process-wide bill store and the two request handlers that use it:
    the calculation, which writes a record under a bill id, and the download,
    which renders a stored record as text. The bill id and the creation
    timestamp, which the service reads from the clock, are parameters. */
module BillService {
  import opened BillTypes
  import opened SplitCalculator
  import opened BillExport

  class BillStore {
    /** Bill id to stored record. */
    var bills: map<string, BillRecord>

    constructor ()
      ensures bills == map[]
    {
      bills := map[];
    }

    /** The calculation handler: compute the split, then store the record
        under `id`, replacing any record stored under it before. A malformed
        dish fails the request before anything is stored. */
    method CalculateBill(raw: seq<RawDish>, people: seq<string>, asg: Assignments,
                         id: string, timestamp: string, round2: real -> real)
      returns (r: Result<Calculation>)
      modifies this
      ensures r == Calculate(raw, people, asg, round2)
      ensures r.Err? ==> bills == old(bills)
      ensures r.Ok? ==> bills == old(bills)[id := BillRecord(r.value.results, r.value.total, timestamp)]
    {
      var totals := ComputeTotals(raw, people, asg);
      if totals.Err? {
        return Err(totals.error);
      }
      var dishes := Validate(raw).value;
      var results := Results(Dedup(people), totals.value, round2);
      var total := round2(GrandTotal(dishes));
      bills := bills[id := BillRecord(results, total, timestamp)];
      r := Ok(Calculation(results, total));
    }

    /** The download handler: "Bill not found" with status 404 for an unknown
        id, otherwise the text of the stored record, built line by line. */
    method Download(id: string, fmt: real -> string) returns (reply: Reply)
      ensures id !in bills ==> reply == Reply(NOT_FOUND_STATUS, NOT_FOUND_BODY)
      ensures id in bills ==> reply == Reply(OK_STATUS, ExportText(bills[id], fmt))
    {
      if id !in bills {
        return Reply(NOT_FOUND_STATUS, NOT_FOUND_BODY);
      }
      var bill := bills[id];
      var content := HEADER + "\n";
      content := content + CreatedLine(bill.timestamp);
      var i := 0;
      while i < |bill.results|
        invariant 0 <= i <= |bill.results|
        invariant content == HEADER + "\n" + CreatedLine(bill.timestamp) + ResultLines(bill.results[..i], fmt)
      {
        assert bill.results[..i + 1][..i] == bill.results[..i];
        content := content + ResultLine(bill.results[i], fmt);
        i := i + 1;
      }
      assert bill.results[..i] == bill.results;
      content := content + TotalLine(bill.total, fmt);
      content := content + FOOTER + "\n";
      reply := Reply(OK_STATUS, content);
    }
  }

  /** A calculation followed by a download of its id: on success the text
      shows exactly the results and total the calculation returned; on
      failure the download sees whatever the id held before. */
  method CalculateThenDownload(store: BillStore, raw: seq<RawDish>, people: seq<string>, asg: Assignments,
                               id: string, timestamp: string, round2: real -> real, fmt: real -> string)
    returns (outcome: Result<Calculation>, reply: Reply)
    modifies store
    ensures outcome == Calculate(raw, people, asg, round2)
    ensures outcome.Ok? ==> reply == Reply(OK_STATUS, ExportText(BillRecord(outcome.value.results, outcome.value.total, timestamp), fmt))
    ensures outcome.Err? && id in old(store.bills) ==> reply == Reply(OK_STATUS, ExportText(old(store.bills)[id], fmt))
    ensures outcome.Err? && id !in old(store.bills) ==> reply == Reply(NOT_FOUND_STATUS, NOT_FOUND_BODY)
  {
    outcome := store.CalculateBill(raw, people, asg, id, timestamp, round2);
    reply := store.Download(id, fmt);
  }

  /** A new store knows no bill. */
  method EmptyStoreNotFound(id: string, fmt: real -> string) returns (reply: Reply)
    ensures reply == Reply(NOT_FOUND_STATUS, NOT_FOUND_BODY)
  {
    var store := new BillStore();
    reply := store.Download(id, fmt);
  }
}
