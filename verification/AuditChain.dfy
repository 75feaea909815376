/**
 The audit log: every record carries the hash of its number, of the previous
 record's hash and of its own canonical text. `h` stands for the hex digest of
 SHA-256; what is needed of it is stated where it is used.
 */
module AuditChain {
  import opened Words

  /** `action` and `detail` are the JSON texts of those fields. */
  datatype AuditEntry = AuditEntry(
    timestamp: string, actor: string, action: string, detail: string, sourceIp: Option<string>)

  /**
   A line of the file: blank, not JSON, or JSON with the chain fields (absent
   ones read as 0 and "") and, if it parses as one, an entry.
   */
  datatype Line =
    | Blank
    | NotJson
    | Record(seqNo: nat, prevHash: string, hash: string, entry: Option<AuditEntry>)

  datatype Report = Report(ok: bool, checked: nat, firstBadSeq: Option<nat>)

  datatype VerifyError = NotJsonAt(line: nat) | NotAnEntryAt(line: nat)

  function CanonicalEntry(e: AuditEntry): string
  {
    e.timestamp + "|" + e.actor + "|" + e.action + "|" + e.detail + "|" + match e.sourceIp case Some(ip) => ip case None => ""
  }

  /** What is hashed for a record. */
  function ChainText(seqNo: nat, prev: string, canonical: string): string
  {
    Decimal(seqNo) + "|" + prev + "|" + canonical
  }

  /** The verifier's loop from a line on, given the hash to continue from. */
  function VerifyFrom(h: string -> string, lines: seq<Line>, prev: string, checked: nat): Result<Report, VerifyError>
    decreases |lines|
  {
    if lines == [] then Ok(Report(true, checked, None))
    else match lines[0]
      case Blank => VerifyFrom(h, lines[1..], prev, checked)
      case NotJson => Err(NotJsonAt(checked + 1))
      case Record(n, recordedPrev, recordedHash, entry) =>
        if recordedHash == "" then VerifyFrom(h, lines[1..], "", checked + 1)
        else if entry.None? then Err(NotAnEntryAt(checked + 1))
        else if recordedPrev != prev || h(ChainText(n, recordedPrev, CanonicalEntry(entry.value))) != recordedHash then
          Ok(Report(false, checked + 1, Some(n)))
        else VerifyFrom(h, lines[1..], recordedHash, checked + 1)
  }

  method VerifyChain(h: string -> string, lines: seq<Line>) returns (r: Result<Report, VerifyError>)
    ensures r == VerifyFrom(h, lines, "", 0)
  {
    var prev, checked: nat := "", 0;
    for i := 0 to |lines|
      invariant VerifyFrom(h, lines, "", 0) == VerifyFrom(h, lines[i..], prev, checked)
    {
      assert lines[i..][0] == lines[i] && lines[i..][1..] == lines[i + 1..];
      match lines[i] {
        case Blank =>
        case NotJson =>
          return Err(NotJsonAt(checked + 1));
        case Record(n, recordedPrev, recordedHash, entry) =>
          checked := checked + 1;
          if recordedHash == "" {
            prev := "";
          } else {
            if entry.None? {
              return Err(NotAnEntryAt(checked));
            }
            var expected := h(ChainText(n, recordedPrev, CanonicalEntry(entry.value)));
            if recordedPrev != prev || expected != recordedHash {
              return Ok(Report(false, checked, Some(n)));
            }
            prev := recordedHash;
          }
      }
    }
    r := Ok(Report(true, checked, None));
  }

  /** `resume_chain`: number and hash of the last line that is JSON. */
  function ResumeChain(lines: seq<Line>): (nat, string)
  {
    if lines == [] then (0, "")
    else match lines[|lines| - 1]
      case Record(n, _, hash, _) => (n, hash)
      case _ => ResumeChain(lines[..|lines| - 1])
  }

  datatype Log = Log(file: seq<Line>, chainSeq: nat, chainPrev: string)

  function Reopened(file: seq<Line>): Log
  {
    var (n, hash) := ResumeChain(file);
    Log(file, n, hash)
  }

  function NextLine(h: string -> string, log: Log, e: AuditEntry): Line
  {
    Record(log.chainSeq + 1, log.chainPrev, h(ChainText(log.chainSeq + 1, log.chainPrev, CanonicalEntry(e))), Some(e))
  }

  /** Appending; on rotation the finished line goes to an empty file and the chain restarts after it. */
  function Appended(h: string -> string, log: Log, e: AuditEntry, rotate: bool): Log
  {
    var line := NextLine(h, log, e);
    if rotate then Log([line], 0, "")
    else Log(log.file + [line], log.chainSeq + 1, line.hash)
  }

  class FileAuditBackend {
    var file: seq<Line>
    var chainSeq: nat
    var chainPrev: string
    const h: string -> string

    function State(): Log
      reads this
    {
      Log(file, chainSeq, chainPrev)
    }

    constructor (file: seq<Line>, h: string -> string)
      ensures State() == Reopened(file) && this.h == h
    {
      this.h := h;
      this.file := file;
      var (n, hash) := ResumeChain(file);
      chainSeq, chainPrev := n, hash;
    }

    /** `rotate` says whether the file has outgrown its limit. */
    method Append(e: AuditEntry, rotate: bool)
      modifies this
      ensures State() == Appended(h, old(State()), e, rotate)
    {
      chainSeq := chainSeq + 1;
      var seqNo, prev := chainSeq, chainPrev;
      var hash := h(ChainText(seqNo, prev, CanonicalEntry(e)));
      var line := Record(seqNo, prev, hash, Some(e));
      chainPrev := hash;
      if rotate {
        chainSeq, chainPrev := 0, "";
        file := [];
      }
      file := file + [line];
    }
  }

  // ----- What acceptance means -----

  /** The hash the next record has to continue from. */
  function EndHash(lines: seq<Line>): string
  {
    if lines == [] then ""
    else match lines[|lines| - 1]
      case Record(_, _, hash, _) => hash
      case _ => EndHash(lines[..|lines| - 1])
  }

  predicate LineFits(h: string -> string, line: Line, prev: string)
  {
    match line
    case Blank => true
    case NotJson => false
    case Record(n, recordedPrev, hash, entry) =>
      hash == "" || (entry.Some? && recordedPrev == prev && h(ChainText(n, prev, CanonicalEntry(entry.value))) == hash)
  }

  /** Every line continues the chain that ends just before it. */
  predicate Chained(h: string -> string, lines: seq<Line>)
  {
    forall i :: 0 <= i < |lines| ==> FitsAt(h, lines, i)
  }

  function Records(lines: seq<Line>): nat
  {
    if lines == [] then 0 else Records(lines[..|lines| - 1]) + if lines[|lines| - 1].Record? then 1 else 0
  }

  /** The verifier accepts exactly the chained files. */
  lemma VerifyAcceptsChained(h: string -> string, lines: seq<Line>)
    ensures Chained(h, lines) ==> VerifyFrom(h, lines, "", 0) == Ok(Report(true, Records(lines), None))
    ensures !Chained(h, lines) ==> VerifyFrom(h, lines, "", 0).Err? || !VerifyFrom(h, lines, "", 0).value.ok
  {
    assert lines[0..] == lines;
    VerifySuffix(h, lines, 0);
  }

  predicate FitsAt(h: string -> string, lines: seq<Line>, i: nat)
    requires i < |lines|
  {
    LineFits(h, lines[i], EndHash(lines[..i]))
  }

  lemma VerifyStep(h: string -> string, lines: seq<Line>, i: nat)
    requires i < |lines|
    ensures var r := VerifyFrom(h, lines[i..], EndHash(lines[..i]), Records(lines[..i]));
            if FitsAt(h, lines, i) then r == VerifyFrom(h, lines[i + 1..], EndHash(lines[..i + 1]), Records(lines[..i + 1]))
            else r == Complaint(lines, i)
  {
    assert lines[i..][0] == lines[i] && lines[i..][1..] == lines[i + 1..];
    assert lines[..i + 1][..i] == lines[..i] && lines[..i + 1][i] == lines[i];
  }

  lemma {:induction false} VerifySuffix(h: string -> string, lines: seq<Line>, i: nat)
    requires i <= |lines|
    ensures var r := VerifyFrom(h, lines[i..], EndHash(lines[..i]), Records(lines[..i]));
            if forall j :: i <= j < |lines| ==> FitsAt(h, lines, j)
            then r == Ok(Report(true, Records(lines), None))
            else r.Err? || !r.value.ok
    decreases |lines| - i
  {
    if i == |lines| {
      assert lines[..i] == lines;
    } else {
      VerifyStep(h, lines, i);
      VerifySuffix(h, lines, i + 1);
    }
  }

  /** The complaint about line i, which is the first that does not fit. */
  function Complaint(lines: seq<Line>, i: nat): Result<Report, VerifyError>
    requires i < |lines|
  {
    var at := Records(lines[..i]) + 1;
    match lines[i]
    case Record(n, _, _, entry) => if entry.None? then Err(NotAnEntryAt(at)) else Ok(Report(false, at, Some(n)))
    case _ => Err(NotJsonAt(at))
  }

  /** A file that is not accepted is refused for its first line that does not fit, whatever comes after it. */
  lemma {:induction false} FirstBadIsReported(h: string -> string, lines: seq<Line>, i: nat, j: nat)
    requires j <= i < |lines| && !FitsAt(h, lines, i) && forall k :: j <= k < i ==> FitsAt(h, lines, k)
    ensures VerifyFrom(h, lines[j..], EndHash(lines[..j]), Records(lines[..j])) == Complaint(lines, i)
    decreases i - j
  {
    VerifyStep(h, lines, j);
    if j < i { FirstBadIsReported(h, lines, i, j + 1); }
  }

  // ----- Appends and restarts -----

  datatype Event = Append(e: AuditEntry) | Restart

  function RunEvents(h: string -> string, log: Log, es: seq<Event>): Log
  {
    if es == [] then log
    else
      var before := RunEvents(h, log, es[..|es| - 1]);
      match es[|es| - 1]
      case Append(e) => Appended(h, before, e, false)
      case Restart => Reopened(before.file)
  }

  function Appends(es: seq<Event>): nat
  {
    if es == [] then 0 else Appends(es[..|es| - 1]) + if es[|es| - 1].Append? then 1 else 0
  }

  ghost predicate NeverEmpty(h: string -> string) { forall x :: h(x) != "" }

  lemma ChainedFront(h: string -> string, lines: seq<Line>)
    requires Chained(h, lines) && lines != []
    ensures Chained(h, lines[..|lines| - 1])
  {
    var front := lines[..|lines| - 1];
    forall i | 0 <= i < |front| ensures FitsAt(h, front, i) {
      assert front[..i] == lines[..i];
      assert FitsAt(h, lines, i);
    }
  }

  lemma {:induction false} ResumeFindsEnd(h: string -> string, file: seq<Line>)
    requires Chained(h, file)
    ensures ResumeChain(file).1 == EndHash(file)
  {
    if file != [] {
      var n := |file| - 1;
      assert FitsAt(h, file, n);
      ChainedFront(h, file);
      ResumeFindsEnd(h, file[..n]);
    }
  }

  lemma ChainedAppend(h: string -> string, file: seq<Line>, line: Line)
    requires Chained(h, file) && LineFits(h, line, EndHash(file))
    ensures Chained(h, file + [line])
    ensures Records(file + [line]) == Records(file) + if line.Record? then 1 else 0
    ensures line.Record? ==> EndHash(file + [line]) == line.hash
  {
    var all := file + [line];
    assert all[..|file|] == file;
    forall i | 0 <= i < |all| ensures FitsAt(h, all, i) {
      if i < |file| {
        assert all[..i] == file[..i];
        assert FitsAt(h, file, i);
      }
    }
  }

  /** Without rotation, appends and restarts in any order keep any accepted file accepted, and lose nothing. */
  lemma {:induction false} RunsStayVerifiable(h: string -> string, file: seq<Line>, es: seq<Event>)
    requires NeverEmpty(h) && Chained(h, file)
    ensures StaysVerifiable(h, file, RunEvents(h, Reopened(file), es), Records(file) + Appends(es))
  {
    RunKeepsChain(h, file, es);
    KeptIsAccepted(h, file, RunEvents(h, Reopened(file), es), Records(file) + Appends(es));
  }

  /** The log continues the file, and the verifier accepts it with n records. */
  ghost predicate StaysVerifiable(h: string -> string, file: seq<Line>, log: Log, n: nat)
  {
    && file <= log.file && Chained(h, log.file) && log.chainPrev == EndHash(log.file)
    && VerifyFrom(h, log.file, "", 0) == Ok(Report(true, n, None))
  }

  ghost predicate Kept(h: string -> string, file: seq<Line>, log: Log, n: nat)
  {
    Chained(h, log.file) && log.chainPrev == EndHash(log.file) && Records(log.file) == n && file <= log.file
  }

  lemma KeptIsAccepted(h: string -> string, file: seq<Line>, log: Log, n: nat)
    requires Kept(h, file, log, n)
    ensures StaysVerifiable(h, file, log, n)
  {
    VerifyAcceptsChained(h, log.file);
  }

  lemma {:induction false} RunKeepsChain(h: string -> string, file: seq<Line>, es: seq<Event>)
    requires NeverEmpty(h) && Chained(h, file)
    ensures Kept(h, file, RunEvents(h, Reopened(file), es), Records(file) + Appends(es))
  {
    if es == [] {
      ResumeFindsEnd(h, file);
    } else {
      var front := es[..|es| - 1];
      RunKeepsChain(h, file, front);
      var log := RunEvents(h, Reopened(file), front);
      match es[|es| - 1]
      case Append(e) => ChainedAppend(h, log.file, NextLine(h, log, e));
      case Restart => ResumeFindsEnd(h, log.file);
    }
  }

  /** What was appended, in order. */
  function Entries(es: seq<Event>): seq<AuditEntry>
  {
    if es == [] then []
    else Entries(es[..|es| - 1]) + match es[|es| - 1] case Append(e) => [e] case Restart => []
  }

  /** The number on the last record of the file, or 0 without records. */
  ghost predicate EndsWith(file: seq<Line>, n: nat)
  {
    || (n == 0 && forall i :: 0 <= i < |file| ==> !file[i].Record?)
    || (exists k :: 0 <= k < |file| && file[k].Record? && file[k].seqNo == n && forall i :: k < i < |file| ==> !file[i].Record?)
  }

  lemma {:induction false} ResumeFindsNumber(file: seq<Line>, n: nat)
    requires EndsWith(file, n)
    ensures ResumeChain(file).0 == n
  {
    if file != [] && !file[|file| - 1].Record? {
      ResumeFindsNumber(file[..|file| - 1], n);
    }
  }

  predicate Carries(line: Line, n: nat, e: AuditEntry) { line.Record? && line.seqNo == n && line.entry == Some(e) }

  /** The records from position k on carry these entries and run on from number n. */
  ghost predicate Numbered(file: seq<Line>, k: nat, n: nat, entries: seq<AuditEntry>)
  {
    |file| == k + |entries| && forall i :: 0 <= i < |entries| ==> Carries(file[k + i], n + i + 1, entries[i])
  }

  lemma NumberedAppend(file: seq<Line>, k: nat, n: nat, entries: seq<AuditEntry>, line: Line, e: AuditEntry)
    requires Numbered(file, k, n, entries) && Carries(line, n + |entries| + 1, e)
    ensures Numbered(file + [line], k, n, entries + [e])
  {
    forall i | 0 <= i < |entries + [e]| ensures Carries((file + [line])[k + i], n + i + 1, (entries + [e])[i]) {
      if i < |entries| { assert Carries(file[k + i], n + i + 1, entries[i]); }
    }
  }

  lemma NumberedEnds(file: seq<Line>, before: seq<Line>, n: nat, entries: seq<AuditEntry>)
    requires before <= file && EndsWith(before, n) && Numbered(file, |before|, n, entries)
    ensures EndsWith(file, n + |entries|)
  {
    var i := |entries| - 1;
    if i < 0 { assert file == before; } else { assert Carries(file[|before| + i], n + i + 1, entries[i]); }
  }

  /** Over appends and restarts of any file, the entries are written in order and their numbers run on by one. */
  lemma {:induction false} NumbersRunOn(h: string -> string, file: seq<Line>, n: nat, es: seq<Event>)
    requires EndsWith(file, n)
    ensures var log := RunEvents(h, Reopened(file), es);
            && file <= log.file && Numbered(log.file, |file|, n, Entries(es)) && log.chainSeq == n + |Entries(es)|
  {
    if es == [] {
      ResumeFindsNumber(file, n);
    } else {
      var front := es[..|es| - 1];
      NumbersRunOn(h, file, n, front);
      var log := RunEvents(h, Reopened(file), front);
      match es[|es| - 1]
      case Append(e) => NumberedAppend(log.file, |file|, n, Entries(front), NextLine(h, log, e), e);
      case Restart =>
        assert Entries(es) == Entries(front) + [];
        NumberedEnds(log.file, file, n, Entries(front));
        ResumeFindsNumber(log.file, n + |Entries(front)|);
    }
  }

  /** Rotation breaks this: the new file is accepted exactly if there was no chain to continue from. */
  lemma RotationIsVerifiableIff(h: string -> string, log: Log, e: AuditEntry)
    requires NeverEmpty(h)
    ensures Chained(h, Appended(h, log, e, true).file) <==> log.chainPrev == ""
  {
    var file := Appended(h, log, e, true).file;
    assert file[..0] == [];
    assert FitsAt(h, file, 0) <==> log.chainPrev == "";
  }

  /** And even then the next append, which starts again from number 1, breaks the new file. */
  lemma AppendAfterRotationIsRejected(h: string -> string, log: Log, e: AuditEntry, e': AuditEntry)
    requires NeverEmpty(h)
    ensures var file := Appended(h, Appended(h, log, e, true), e', false).file;
            !Chained(h, file) && |file| == 2 && file[0].seqNo == log.chainSeq + 1 && file[1].seqNo == 1
  {
    var rotated := Appended(h, log, e, true);
    var file := Appended(h, rotated, e', false).file;
    assert file[1] == NextLine(h, rotated, e') && file[..1] == rotated.file;
    assert !FitsAt(h, file, 1);
  }

  // ----- Tamper evidence -----

  ghost predicate BarFree(s: string) { '|' !in s }

  ghost predicate Injective(h: string -> string) { forall x, y :: h(x) == h(y) ==> x == y }

  lemma {:induction false} DecimalInjective(m: nat, n: nat)
    ensures BarFree(Decimal(m)) && |Decimal(m)| > 0
    ensures Decimal(m) == Decimal(n) ==> m == n
  {
    DecimalBarFree(m);
    DecimalBarFree(n);
    if Decimal(m) == Decimal(n) {
      var k := |Decimal(m)| - 1;
      assert Decimal(m)[k] == '0' + (m % 10) as char && Decimal(n)[k] == '0' + (n % 10) as char;
      assert m % 10 == n % 10;
      if m >= 10 && n >= 10 {
        assert Decimal(m)[..k] == Decimal(m / 10) && Decimal(n)[..k] == Decimal(n / 10);
        DecimalInjective(m / 10, n / 10);
      }
    }
  }

  lemma {:induction false} DecimalBarFree(n: nat)
    ensures BarFree(Decimal(n)) && |Decimal(n)| > 0
    ensures n >= 10 ==> |Decimal(n)| > 1
    ensures n < 10 ==> |Decimal(n)| == 1
  {
    if n >= 10 { DecimalBarFree(n / 10); }
  }

  lemma BarAt(a: string, x: string)
    requires BarFree(a)
    ensures var s := a + "|" + x;
            && |s| > |a| && s[|a|] == '|' && (forall i :: 0 <= i < |a| ==> s[i] != '|')
            && s[..|a|] == a && s[|a| + 1..] == x
  {
    var s := a + "|" + x;
    forall i | 0 <= i < |a| ensures s[i] != '|' {
      assert s[i] == a[i] && a[i] in a;
    }
  }

  /** The text before the first bar is determined. */
  lemma SplitAtBar(a: string, x: string, b: string, y: string)
    requires a + "|" + x == b + "|" + y && BarFree(a) && BarFree(b)
    ensures a == b && x == y
  {
    BarAt(a, x);
    BarAt(b, y);
  }

  lemma ChainTextInjective(m: nat, p: string, c: string, n: nat, q: string, d: string)
    requires ChainText(m, p, c) == ChainText(n, q, d) && BarFree(p) && BarFree(q)
    ensures m == n && p == q && c == d
  {
    DecimalBarFree(m);
    DecimalBarFree(n);
    assert ChainText(m, p, c) == Decimal(m) + "|" + (p + "|" + c);
    assert ChainText(n, q, d) == Decimal(n) + "|" + (q + "|" + d);
    SplitAtBar(Decimal(m), p + "|" + c, Decimal(n), q + "|" + d);
    DecimalInjective(m, n);
    SplitAtBar(p, c, q, d);
  }

  ghost predicate AllHashed(lines: seq<Line>)
  {
    forall i :: 0 <= i < |lines| ==> lines[i].Record? && lines[i].hash != "" && lines[i].entry.Some?
  }

  ghost predicate SameRecord(a: Line, b: Line)
    requires a.Record? && b.Record? && a.entry.Some? && b.entry.Some?
  {
    && a.seqNo == b.seqNo && a.prevHash == b.prevHash && a.hash == b.hash
    && CanonicalEntry(a.entry.value) == CanonicalEntry(b.entry.value)
  }

  ghost predicate GoodHash(h: string -> string)
  {
    Injective(h) && NeverEmpty(h) && forall x :: BarFree(h(x))
  }

  lemma ChainedEnd(h: string -> string, f: seq<Line>)
    requires GoodHash(h) && Chained(h, f) && AllHashed(f) && f != []
    ensures var n := |f| - 1;
            && Chained(h, f[..n]) && AllHashed(f[..n])
            && f[n].prevHash == EndHash(f[..n])
            && f[n].hash == h(ChainText(f[n].seqNo, f[n].prevHash, CanonicalEntry(f[n].entry.value)))
            && BarFree(f[n].hash)
            && (n > 0 ==> EndHash(f[..n]) == f[n - 1].hash)
  {
    var n := |f| - 1;
    assert FitsAt(h, f, n);
    ChainedFront(h, f);
  }

  lemma EndHashBarFree(h: string -> string, f: seq<Line>)
    requires GoodHash(h) && Chained(h, f) && AllHashed(f)
    ensures BarFree(EndHash(f)) && (EndHash(f) == "" <==> f == [])
  {
    if f != [] { ChainedEnd(h, f); }
  }

  lemma LastRecordsAgree(h: string -> string, f: seq<Line>, g: seq<Line>)
    requires GoodHash(h) && AllHashed(f) && AllHashed(g)
    requires Chained(h, f) && Chained(h, g)
    requires f != [] && g != [] && f[|f| - 1].hash == g[|g| - 1].hash
    ensures SameRecord(f[|f| - 1], g[|g| - 1])
    ensures EndHash(f[..|f| - 1]) == EndHash(g[..|g| - 1])
  {
    var n, m := |f| - 1, |g| - 1;
    ChainedEnd(h, f);
    ChainedEnd(h, g);
    EndHashBarFree(h, f[..n]);
    EndHashBarFree(h, g[..m]);
    ChainTextInjective(f[n].seqNo, f[n].prevHash, CanonicalEntry(f[n].entry.value),
                       g[m].seqNo, g[m].prevHash, CanonicalEntry(g[m].entry.value));
  }

  /** Main result: two accepted, fully hashed files with the same last hash agree record by record. */
  lemma {:induction false} LastHashFixesFile(h: string -> string, f: seq<Line>, g: seq<Line>)
    requires GoodHash(h) && AllHashed(f) && AllHashed(g)
    requires Chained(h, f) && Chained(h, g)
    requires f != [] && g != [] && f[|f| - 1].hash == g[|g| - 1].hash
    ensures |f| == |g| && forall i :: 0 <= i < |f| ==> SameRecord(f[i], g[i])
  {
    var n, m := |f| - 1, |g| - 1;
    LastRecordsAgree(h, f, g);
    ChainedEnd(h, f);
    ChainedEnd(h, g);
    EndHashBarFree(h, f[..n]);
    EndHashBarFree(h, g[..m]);
    if n > 0 {
      FrontsAgree(h, f[..n], g[..m]);
      LastHashFixesFile(h, f[..n], g[..m]);
      forall i | 0 <= i < |f| ensures SameRecord(f[i], g[i]) {
        if i < n { assert SameRecord(f[..n][i], g[..m][i]); }
      }
    }
  }

  lemma FrontsAgree(h: string -> string, f: seq<Line>, g: seq<Line>)
    requires AllHashed(f) && AllHashed(g) && EndHash(f) == EndHash(g) && f != []
    ensures g != [] && f[|f| - 1].hash == g[|g| - 1].hash
  {
  }

  function IpText(e: AuditEntry): string { match e.sourceIp case Some(ip) => ip case None => "" }

  /**
   Among entries without a bar in any field but the detail, as the program writes
   them, the canonical text fixes all but the difference between no source and an
   empty one.
   */
  lemma CanonicalFixesEntry(d: AuditEntry, e: AuditEntry)
    requires CanonicalEntry(d) == CanonicalEntry(e)
    requires forall x :: x in {d, e} ==> BarFree(x.timestamp) && BarFree(x.actor) && BarFree(x.action) && BarFree(IpText(x))
    ensures d == e.(sourceIp := d.sourceIp) && IpText(d) == IpText(e)
  {
    var a, b := d.detail + "|" + IpText(d), e.detail + "|" + IpText(e);
    Spelled(d);
    Spelled(e);
    SplitAtBar(d.timestamp, d.actor + "|" + (d.action + "|" + a), e.timestamp, e.actor + "|" + (e.action + "|" + b));
    SplitAtBar(d.actor, d.action + "|" + a, e.actor, e.action + "|" + b);
    SplitAtBar(d.action, a, e.action, b);
    SplitAtLastBar(d.detail, IpText(d), e.detail, IpText(e));
  }

  lemma Spelled(e: AuditEntry)
    ensures CanonicalEntry(e) == e.timestamp + "|" + (e.actor + "|" + (e.action + "|" + (e.detail + "|" + IpText(e))))
  {
  }

  /** No field has a bar, and there is a source. */
  ghost predicate Plain(e: AuditEntry)
  {
    BarFree(e.timestamp) && BarFree(e.actor) && BarFree(e.action) && BarFree(e.detail) && BarFree(IpText(e)) && IpText(e) != ""
  }

  ghost function Bars(s: string): nat { multiset(s)['|'] }

  /** The text has four bars of its own, so entries with the same text have as many bars in their fields. */
  lemma BarsInText(e: AuditEntry)
    ensures Bars(CanonicalEntry(e)) == 4 + Bars(e.timestamp) + Bars(e.actor) + Bars(e.action) + Bars(e.detail) + Bars(IpText(e))
  {
  }

  lemma AsFewBars(d: AuditEntry, e: AuditEntry)
    requires CanonicalEntry(d) == CanonicalEntry(e)
    ensures Bars(d.timestamp) + Bars(d.actor) + Bars(d.action) + Bars(d.detail) + Bars(IpText(d))
            == Bars(e.timestamp) + Bars(e.actor) + Bars(e.action) + Bars(e.detail) + Bars(IpText(e))
  {
    BarsInText(d);
    BarsInText(e);
  }

  lemma PlainIsUnique(d: AuditEntry, e: AuditEntry)
    requires Plain(e) && CanonicalEntry(d) == CanonicalEntry(e)
    ensures d == e
  {
    AsFewBars(d, e);
    CanonicalFixesEntry(d, e);
  }

  /** Among all entries, one is the only one with its text exactly if it is plain. */
  lemma TextIsUniqueIff(e: AuditEntry)
    ensures Plain(e) <==> forall d :: CanonicalEntry(d) == CanonicalEntry(e) ==> d == e
  {
    if Plain(e) {
      forall d | CanonicalEntry(d) == CanonicalEntry(e) ensures d == e { PlainIsUnique(d, e); }
    } else {
      var d := MovedBarIsInvisible(e);
    }
  }

  lemma SplitSomewhere(s: string) returns (x: string, y: string)
    requires !BarFree(s)
    ensures s == x + "|" + y
  {
    var i :| 0 <= i < |s| && s[i] == '|';
    x, y := s[..i], s[i + 1..];
  }

  /** Any other entry can be rewritten unnoticed: a bar moves into the next field, or an empty source goes or comes. */
  lemma MovedBarIsInvisible(e: AuditEntry) returns (d: AuditEntry)
    requires !Plain(e)
    ensures CanonicalEntry(d) == CanonicalEntry(e) && d != e
  {
    if !(BarFree(e.timestamp) && BarFree(e.actor) && BarFree(e.action)) {
      d := MovedEarly(e);
    } else if !BarFree(e.detail) {
      var x, y := SplitSomewhere(e.detail);
      d := e.(detail := x, sourceIp := Some(y + "|" + IpText(e)));
    } else if !BarFree(IpText(e)) {
      var x, y := SplitSomewhere(IpText(e));
      d := e.(detail := e.detail + "|" + x, sourceIp := Some(y));
    } else {
      d := e.(sourceIp := if e.sourceIp.None? then Some("") else None);
    }
  }

  lemma MovedEarly(e: AuditEntry) returns (d: AuditEntry)
    requires !(BarFree(e.timestamp) && BarFree(e.actor) && BarFree(e.action))
    ensures CanonicalEntry(d) == CanonicalEntry(e) && d != e
  {
    if !BarFree(e.timestamp) {
      var x, y := SplitSomewhere(e.timestamp);
      d := e.(timestamp := x, actor := y + "|" + e.actor);
    } else if !BarFree(e.actor) {
      var x, y := SplitSomewhere(e.actor);
      d := e.(actor := x, action := y + "|" + e.action);
    } else {
      var x, y := SplitSomewhere(e.action);
      d := e.(action := x, detail := y + "|" + e.detail);
    }
  }

  lemma LastBarAt(x: string, a: string)
    requires BarFree(a)
    ensures var s := x + "|" + a;
            && |s| > |x| && s[|x|] == '|' && (forall i :: |x| < i < |s| ==> s[i] != '|')
            && s[..|x|] == x && s[|x| + 1..] == a
  {
    var s := x + "|" + a;
    forall i | |x| < i < |s| ensures s[i] != '|' {
      assert s[i] == a[i - |x| - 1] && a[i - |x| - 1] in a;
    }
  }

  lemma SplitAtLastBar(x: string, a: string, y: string, b: string)
    requires x + "|" + a == y + "|" + b && BarFree(a) && BarFree(b)
    ensures a == b && x == y
  {
    LastBarAt(x, a);
    LastBarAt(y, b);
  }
}
