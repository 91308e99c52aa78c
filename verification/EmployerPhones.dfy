/** One employer row per phone: `create` looks the number up in one session and
    inserts in another, so the promise holds exactly as far as nobody comes between. */
module EmployerPhones {
  import opened Billing
  import opened Phones

  /** No two registered employers share a number, unless the later one has none. */
  predicate PhonesDistinct(employers: seq<Employer>) {
    forall i, j :: 0 <= i < j < |employers| && employers[j].phone != "" ==>
      Last10(employers[i].phone) != Last10(employers[j].phone)
  }

  /** A row of this number was written at or after position `from`. */
  predicate WrittenSince(employers: seq<Employer>, from: nat, phone: string) {
    exists i :: from <= i < |employers| && Last10(employers[i].phone) == Last10(phone)
  }

  /** The rows a pending check went through do not carry its number. */
  predicate ChecksHold(s: State) {
    forall c :: c in s.checks ==>
      && s.checks[c].seen <= |s.employers|
      && (s.checks[c].phone != "" ==> !WrittenSince(s.employers[..s.checks[c].seen], 0, s.checks[c].phone))
  }

  /** This insert commits although another insert of its number fell between its
      caller's check and itself. */
  predicate Overtaken(s: State, c: Call) {
    && c.op.CreateEmployer? && Step(s, c).out.Committed?
    && c.op.phone != "" && c.op.caller in s.checks
    && WrittenSince(s.employers, s.checks[c.op.caller].seen, c.op.phone)
  }

  function OvertakenInserts(s: State, calls: seq<Call>): nat
    decreases |calls|
  {
    if calls == [] then 0
    else (if Overtaken(s, calls[0]) then 1 else 0) + OvertakenInserts(Step(s, calls[0]).st, calls[1..])
  }

  lemma ChargeElsewhere(s: State, op: Op, commit: bool)
    requires op.PostJob? || op.Purchase? || op.RecordRenewal?
    ensures var s' := Try(s, op, commit).st; s'.employers == s.employers && s'.checks == s.checks
  {
    hide ApplyDelta;
    hide Rows;
  }

  lemma Elsewhere(s: State, op: Op, commit: bool)
    requires !op.CreateEmployer? && !op.CheckPhone?
    ensures var s' := Try(s, op, commit).st; s'.employers == s.employers && s'.checks == s.checks
  {
    if op.PostJob? || op.Purchase? || op.RecordRenewal? {
      ChargeElsewhere(s, op, commit);
    } else if op.Activate? {
      hide ApplyDelta;
      hide Rows;
    }
  }

  /** What an insert does to the employers and the pending checks. */
  lemma InsertAppends(s: State, c: Call)
    requires c.op.CreateEmployer?
    ensures var r := Step(s, c);
      if r.out.Committed? then
        && c.op.caller in s.checks && s.checks[c.op.caller].phone == c.op.phone
        && r.st.employers == s.employers + [Employer(c.op.empId, c.op.phone)]
        && r.st.checks == s.checks - {c.op.caller}
      else r.st.employers == s.employers && r.st.checks == s.checks
  {
  }

  lemma StepChecks(s: State, c: Call)
    requires ChecksHold(s)
    ensures ChecksHold(Step(s, c).st)
    ensures s.employers <= Step(s, c).st.employers
  {
    hide Last10;
    if c.op.CreateEmployer? {
      hide Step;
      InsertAppends(s, c);
      var s' := Step(s, c).st;
      assert forall k :: k in s'.checks ==> s'.employers[..s'.checks[k].seen] == s.employers[..s'.checks[k].seen];
    } else if c.op.CheckPhone? {
      assert s.employers[..|s.employers|] == s.employers;
    } else if !c.fault {
      Elsewhere(s, c.op, c.commit);
      hide Try;
    }
  }

  /** A step keeps the numbers distinct exactly when it is not an overtaken insert. */
  lemma StepPhones(s: State, c: Call)
    requires PhonesDistinct(s.employers) && ChecksHold(s)
    ensures PhonesDistinct(Step(s, c).st.employers) <==> !Overtaken(s, c)
  {
    hide Last10;
    if c.op.CreateEmployer? {
      hide Step;
      InsertAppends(s, c);
      if Step(s, c).out.Committed? && c.op.phone != "" {
        InsertedPhone(s.employers, s.checks[c.op.caller].seen, Employer(c.op.empId, c.op.phone));
      }
    } else if c.op.CheckPhone? {
    } else if !c.fault {
      Elsewhere(s, c.op, c.commit);
      hide Try;
    }
  }

  lemma InsertedPhone(employers: seq<Employer>, seen: nat, m: Employer)
    requires PhonesDistinct(employers) && m.phone != "" && seen <= |employers|
    requires !WrittenSince(employers[..seen], 0, m.phone)
    ensures PhonesDistinct(employers + [m]) <==> !WrittenSince(employers, seen, m.phone)
  {
    hide Last10;
    var all, n := employers + [m], |employers|;
    assert all[n] == m;
    if WrittenSince(employers, seen, m.phone) {
      var i :| seen <= i < n && Last10(employers[i].phone) == Last10(m.phone);
      assert Last10(all[i].phone) == Last10(all[n].phone);
    } else {
      forall i | 0 <= i < n ensures Last10(employers[i].phone) != Last10(m.phone) {
        if i < seen {
          assert employers[..seen][i] == employers[i];
        }
      }
    }
  }

  lemma {:induction false} SharedStaysShared(s: State, calls: seq<Call>)
    requires !PhonesDistinct(s.employers) && ChecksHold(s)
    ensures !PhonesDistinct(Run(s, calls).employers)
    decreases |calls|
  {
    hide Step;
    hide Last10;
    if calls != [] {
      StepChecks(s, calls[0]);
      SharedStaysShared(Step(s, calls[0]).st, calls[1..]);
    }
  }

  /** Registration is idempotent on the last ten digits, exactly: a run leaves one
      row per number if and only if no committed insert had another insert of its
      number between its caller's phone check and itself. */
  lemma {:induction false} OneEmployerPerPhoneIff(s: State, calls: seq<Call>)
    requires PhonesDistinct(s.employers) && ChecksHold(s)
    ensures PhonesDistinct(Run(s, calls).employers) <==> OvertakenInserts(s, calls) == 0
    decreases |calls|
  {
    hide Step;
    hide Last10;
    if calls != [] {
      var s1 := Step(s, calls[0]).st;
      StepChecks(s, calls[0]);
      StepPhones(s, calls[0]);
      if Overtaken(s, calls[0]) {
        SharedStaysShared(s1, calls[1..]);
      } else {
        OneEmployerPerPhoneIff(s1, calls[1..]);
      }
    }
  }

  lemma InsertGoesThrough(s: State, caller: nat, id: Id, phone: string)
    requires caller in s.checks && s.checks[caller].phone == phone
    requires forall i :: 0 <= i < |s.employers| ==> s.employers[i].id != id
    ensures Step(s, Call(Op.CreateEmployer(caller, id, phone, 0, ""), true, false))
      == Reply(s.(employers := s.employers + [Employer(id, phone)], checks := s.checks - {caller}),
               Committed(Op.CreateEmployer(caller, id, phone, 0, "")))
  {
    hide Last10;
  }

  lemma CheckGoesThrough(s: State, caller: nat, phone: string)
    requires s.employers == []
    ensures Step(s, Call(CheckPhone(caller, phone), true, false))
      == Reply(s.(checks := s.checks[caller := Checked(phone, 0)]), MayInsert)
  {
    hide Last10;
  }

  lemma RunCons(s: State, c: Call, rest: seq<Call>)
    ensures Run(s, [c] + rest) == Run(Step(s, c).st, rest)
    ensures OvertakenInserts(s, [c] + rest)
      == (if Overtaken(s, c) then 1 else 0) + OvertakenInserts(Step(s, c).st, rest)
  {
    assert ([c] + rest)[1..] == rest;
  }

  /** Two creates of one number, in whatever spelling, both checked before either
      inserts: two rows. */
  lemma RacingCreates(s: State, phone: string, other: string, first: Id, second: Id) returns (calls: seq<Call>)
    requires s.employers == [] && other != "" && Last10(phone) == Last10(other) && first != second
    ensures Run(s, calls).employers == [Employer(first, phone), Employer(second, other)]
    ensures OvertakenInserts(s, calls) == 1 && !PhonesDistinct(Run(s, calls).employers)
  {
    hide Step;
    hide Last10;
    var c0, c1 := Call(CheckPhone(0, phone), true, false), Call(CheckPhone(1, other), true, false);
    var i0 := Call(Op.CreateEmployer(0, first, phone, 0, ""), true, false);
    var i1 := Call(Op.CreateEmployer(1, second, other, 0, ""), true, false);
    CheckGoesThrough(s, 0, phone);
    var s1 := Step(s, c0).st;
    CheckGoesThrough(s1, 1, other);
    var s2 := Step(s1, c1).st;
    InsertGoesThrough(s2, 0, first, phone);
    var s3 := Step(s2, i0).st;
    assert !Overtaken(s2, i0);
    InsertGoesThrough(s3, 1, second, other);
    assert Last10(s3.employers[0].phone) == Last10(other);
    calls := [c0] + ([c1] + ([i0] + ([i1] + [])));
    RunCons(s, c0, [c1] + ([i0] + ([i1] + [])));
    RunCons(s1, c1, [i0] + ([i1] + []));
    RunCons(s2, i0, [i1] + []);
    RunCons(s3, i1, []);
    var rows := Run(s, calls).employers;
    assert Last10(rows[0].phone) == Last10(rows[1].phone);
  }

  /** The form's own lock, which compares all digits, does not prevent it: the number
      with and without its country code takes two locks and makes two rows. */
  lemma CountryCodeRaces(s: State, code: string, local: string, first: Id, second: Id) returns (calls: seq<Call>)
    requires s.employers == [] && first != second
    requires code != "" && forall i :: 0 <= i < |code| ==> IsDigit(code[i])
    requires |local| == 10 && forall i :: 0 <= i < |local| ==> IsDigit(local[i])
    ensures Digits(code + local) != Digits(local)
    ensures Run(s, calls).employers == [Employer(first, code + local), Employer(second, local)]
    ensures !PhonesDistinct(Run(s, calls).employers)
  {
    CountryCode(code, local);
    calls := RacingCreates(s, code + local, local, first, second);
  }
}
