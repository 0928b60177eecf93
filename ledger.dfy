/**
 * The loan ledger as a value: the ordered list of `BorrowRecord`s, what loading
 * the loan file builds, what saving it writes, which record a return removes,
 * and the penalty a return costs.
 */
module Ledger {
  import opened Wrappers
  import opened Records

  /**
   * The records `loadBorrowListFromFile` has pushed when it stops: one per
   * record line, in file order, up to the first malformed line (where `stoi`
   * throws) or the end of the file.
   */
  function LoadedLoans(lines: seq<string>): seq<BorrowRecord>
  {
    if lines == [] then []
    else
      match ParseLoanLine(lines[0])
      case Skipped => LoadedLoans(lines[1..])
      case Malformed => []
      case Loan(r) => [r] + LoadedLoans(lines[1..])
  }

  /** No line of the file makes `stoi` throw, so the whole file is read. */
  predicate LoansWellFormed(lines: seq<string>)
  {
    forall i :: 0 <= i < |lines| ==> !ParseLoanLine(lines[i]).Malformed?
  }

  /** Well-formedness of a prefix grows by one line that is not malformed, and is lost by one that is. */
  lemma LoansWellFormedPrefix(lines: seq<string>, i: nat)
    requires i < |lines| && LoansWellFormed(lines[..i])
    ensures LoansWellFormed(lines[..i + 1]) <==> !ParseLoanLine(lines[i]).Malformed?
    ensures ParseLoanLine(lines[i]).Malformed? ==> !LoansWellFormed(lines)
  {
  }

  /**
   * The read loop of `loadBorrowListFromFile`: one record per record line,
   * stopping at the first line whose day count `stoi` rejects.
   */
  method ReadLoanLines(lines: seq<string>) returns (loaded: seq<BorrowRecord>, complete: bool)
    ensures loaded == LoadedLoans(lines)
    ensures complete <==> LoansWellFormed(lines)
  {
    loaded, complete := [], true;
    var i := 0;
    while i < |lines|
      invariant 0 <= i <= |lines|
      invariant loaded + LoadedLoans(lines[i..]) == LoadedLoans(lines)
      invariant LoansWellFormed(lines[..i])
    {
      LoadedLoansFrom(lines, i);
      LoansWellFormedPrefix(lines, i);
      var parsed := ParseLoanLine(lines[i]);
      if parsed.Malformed? {
        complete := false;
        return;
      }
      if parsed.Loan? {
        loaded := loaded + [parsed.record];
      }
      i := i + 1;
    }
    assert lines[..i] == lines;
  }

  /** What `saveBorrowListToFile` writes: one loan line per record, in ledger order. */
  predicate IsLoanFileOf(lines: seq<string>, loans: seq<BorrowRecord>)
  {
    |lines| == |loans| && forall i :: 0 <= i < |lines| ==> lines[i] == LoanLine(loans[i])
  }

  /** Loading the saved ledger reads the whole file and rebuilds the ledger in the same order. */
  lemma {:induction false} SaveLoadLoansRoundTrip(lines: seq<string>, loans: seq<BorrowRecord>)
    requires IsLoanFileOf(lines, loans)
    requires forall i :: 0 <= i < |loans| ==> StorableLoan(loans[i])
    ensures LoansWellFormed(lines)
    ensures LoadedLoans(lines) == loans
  {
    if lines != [] {
      var tail := lines[1..];
      LoanLineRoundTrip(loans[0]);
      assert ParseLoanLine(lines[0]) == Loan(loans[0]);
      assert IsLoanFileOf(tail, loans[1..]) by {
        forall i | 0 <= i < |tail| ensures tail[i] == LoanLine(loans[1..][i]) {
          assert tail[i] == lines[i + 1];
        }
      }
      SaveLoadLoansRoundTrip(tail, loans[1..]);
      LoadedLoansCons(lines);
      assert loans == [loans[0]] + loans[1..];
      forall i | 0 <= i < |lines| ensures !ParseLoanLine(lines[i]).Malformed? {
        if i > 0 { assert lines[i] == tail[i - 1]; }
      }
    }
  }

  /** Reading on from line `i`: what that line contributes ahead of the lines after it. */
  lemma LoadedLoansFrom(lines: seq<string>, i: nat)
    requires i < |lines|
    ensures ParseLoanLine(lines[i]).Skipped? ==> LoadedLoans(lines[i..]) == LoadedLoans(lines[i + 1..])
    ensures ParseLoanLine(lines[i]).Malformed? ==> LoadedLoans(lines[i..]) == []
    ensures ParseLoanLine(lines[i]).Loan? ==>
      LoadedLoans(lines[i..]) == [ParseLoanLine(lines[i]).record] + LoadedLoans(lines[i + 1..])
  {
  }

  /** A record line contributes its record ahead of those of the lines after it. */
  lemma LoadedLoansCons(lines: seq<string>)
    requires lines != [] && ParseLoanLine(lines[0]).Loan?
    ensures LoadedLoans(lines) == [ParseLoanLine(lines[0]).record] + LoadedLoans(lines[1..])
  {
  }

  /** The `find_if` test of `manageReturns`: same borrower and same ISBN. */
  predicate Matches(r: BorrowRecord, borrowerName: string, isbn: string)
  {
    r.borrowerName == borrowerName && r.isbn == isbn
  }

  /** The position of the first record matching borrower and ISBN, if any. */
  function FirstMatch(loans: seq<BorrowRecord>, borrowerName: string, isbn: string): (r: Option<nat>)
    ensures r.Some? ==> r.value < |loans| && Matches(loans[r.value], borrowerName, isbn)
    ensures r.Some? ==> forall j :: 0 <= j < r.value ==> !Matches(loans[j], borrowerName, isbn)
    ensures r.None? ==> forall j :: 0 <= j < |loans| ==> !Matches(loans[j], borrowerName, isbn)
  {
    if loans == [] then None
    else if Matches(loans[0], borrowerName, isbn) then Some(0)
    else match FirstMatch(loans[1..], borrowerName, isbn)
      case None => None
      case Some(k) => Some(k + 1)
  }

  /** The ledger without the record at position `i`; every other record keeps its place in the order. */
  function RemoveAt(loans: seq<BorrowRecord>, i: nat): seq<BorrowRecord>
    requires i < |loans|
  {
    loans[..i] + loans[i + 1..]
  }

  /** Removing one record takes away exactly that record and keeps the rest, in order. */
  lemma RemoveAtSpec(loans: seq<BorrowRecord>, i: nat)
    requires i < |loans|
    ensures |RemoveAt(loans, i)| == |loans| - 1
    ensures forall j :: 0 <= j < i ==> RemoveAt(loans, i)[j] == loans[j]
    ensures forall j :: i <= j < |loans| - 1 ==> RemoveAt(loans, i)[j] == loans[j + 1]
    ensures multiset(RemoveAt(loans, i)) + multiset{loans[i]} == multiset(loans)
  {
    assert loans == loans[..i] + [loans[i]] + loans[i + 1..];
  }

  /** The surcharge for the condition the book comes back in; any other text costs nothing. */
  function ConditionPenalty(condition: string): (c: int)
    ensures 0 <= c <= 8
  {
    if condition == "100%" then 0
    else if condition == "75%" then 3
    else if condition == "50%" then 5
    else if condition == "25%" then 8
    else 0
  }

  /** `overdueDays * 2 + conditionPenalty`, what `manageReturns` charges. */
  function TotalPenalty(overdueDays: int, condition: string): (p: int)
    ensures 2 * overdueDays <= p <= 2 * overdueDays + 8
    ensures condition !in {"75%", "50%", "25%"} ==> p == 2 * overdueDays
  {
    overdueDays * 2 + ConditionPenalty(condition)
  }

  /** The surcharge table, and the worked example of five overdue days at 75%. */
  lemma PenaltyTable(overdueDays: int)
    ensures TotalPenalty(overdueDays, "100%") == 2 * overdueDays
    ensures TotalPenalty(overdueDays, "75%") == 2 * overdueDays + 3
    ensures TotalPenalty(overdueDays, "50%") == 2 * overdueDays + 5
    ensures TotalPenalty(overdueDays, "25%") == 2 * overdueDays + 8
    ensures TotalPenalty(5, "75%") == 13
    ensures TotalPenalty(overdueDays, "unknown") == 2 * overdueDays
  {
  }
}
