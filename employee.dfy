/** The employees the menu of LabEmployee.py keeps in its list `dsNhanVien`, and
    what its options do to them, stated on their records. Employee.py is not part of
    this model: an employee here has the four fields the menu reads and writes. */
module Employees {
  import opened Wrappers
  import opened Text

  /** An employee's fields as values. */
  datatype EmpRecord = EmpRecord(code: string, name: string, age: int, salary: real)

  /** `emp.Employee(code, name, age, salary)`: the menu overwrites `salary` in place. */
  class Employee {
    var code: string
    var name: string
    var age: int
    var salary: real

    constructor (code: string, name: string, age: int, salary: real)
      ensures this.code == code && this.name == name && this.age == age && this.salary == salary
    {
      this.code := code;
      this.name := name;
      this.age := age;
      this.salary := salary;
    }

    function Record(): EmpRecord
      reads this
    {
      EmpRecord(code, name, age, salary)
    }
  }

  /** The records of a list of employees, position by position. */
  function Records(es: seq<Employee>): (r: seq<EmpRecord>)
    reads es
    ensures |r| == |es|
    ensures forall k {:trigger r[k]} :: 0 <= k < |es| ==> r[k] == es[k].Record()
  {
    seq(|es|, k requires 0 <= k < |es| reads es => es[k].Record())
  }

  // ---------------------------------------------------------------- option 1: one line per employee

  /** The comma-separated fields of a line of the input file, newlines stripped
      from both ends first. */
  function Fields(line: string): seq<string> {
    Split(StripChars(line, {'\n'}), ',')
  }

  /** An employee from the first four fields of a line: code, name, `int` age and
      `float` salary; None where the line has fewer than four fields or the age or
      salary does not parse (the program stops there). */
  function ParseLine(line: string): Option<EmpRecord> {
    FromFields(Fields(line))
  }

  /** The employee the fields describe; fields past the fourth play no part. */
  function FromFields(ds: seq<string>): Option<EmpRecord> {
    if |ds| < 4 then None
    else
      var age := ParseInt(ds[2]);
      var salary := ParseFloat(ds[3]);
      if age.Some? && salary.Some? then Some(EmpRecord(ds[0], ds[1], age.value, salary.value))
      else None
  }

  /** A line written as comma-free, newline-free fields joined by commas gives
      those fields back, so it parses to the employee they describe. */
  lemma {:induction false} FieldsOfJoin(fields: seq<string>)
    requires |fields| >= 1
    requires forall k :: 0 <= k < |fields| ==> ',' !in fields[k] && '\n' !in fields[k]
    ensures Fields(Join(fields, [','])) == fields
  {
    JoinNoNewline(fields);
    StripNoNewline(Join(fields, [',']));
    SplitJoin(fields, ',');
  }

  /** Stripping newlines from a line without any leaves it as it is. */
  lemma {:induction false} StripNoNewline(line: string)
    requires '\n' !in line
    ensures StripChars(line, {'\n'}) == line
  {
    if line != [] {
      assert line[0] in line && line[|line| - 1] in line;
    }
    StripKeepsStripped(line, {'\n'});
  }

  /** Joining newline-free pieces with a comma adds no newline. */
  lemma {:induction false} JoinNoNewline(parts: seq<string>)
    requires forall k :: 0 <= k < |parts| ==> '\n' !in parts[k]
    ensures '\n' !in Join(parts, [','])
  {
    if |parts| > 1 {
      JoinNoNewline(parts[1..]);
    }
  }

  /** Each line of a file as option 1 reads it. */
  function Parsed(lines: seq<string>): (r: seq<Option<EmpRecord>>)
    ensures |r| == |lines|
  {
    seq(|lines|, i requires 0 <= i < |lines| => ParseLine(lines[i]))
  }

  /** The employees of a whole file, in line order; None when some line does not
      parse. */
  function Loaded(parsed: seq<Option<EmpRecord>>): (r: Option<seq<EmpRecord>>)
    ensures r.None? <==> exists i :: 0 <= i < |parsed| && parsed[i].None?
    ensures r.Some? ==> |r.value| == |parsed|
                        && forall i :: 0 <= i < |parsed| ==> Some(r.value[i]) == parsed[i]
  {
    if parsed == [] then Some([])
    else
      var rest := Loaded(parsed[..|parsed| - 1]);
      var last := parsed[|parsed| - 1];
      if rest.Some? && last.Some? then Some(rest.value + [last.value])
      else
        assert exists i :: 0 <= i < |parsed| && parsed[i].None? by {
          if rest.None? {
            var i :| 0 <= i < |parsed| - 1 && parsed[..|parsed| - 1][i].None?;
            assert parsed[i].None?;
          }
        }
        None
  }

  /** Option 2 reads the same four fields, one answer each, that option 1 reads
      from a line: a line written from comma-free, newline-free answers loads the
      employee that option 2 adds from them. */
  lemma {:induction false} LineOfAnswers(answers: seq<string>)
    requires |answers| >= 4
    requires forall k :: 0 <= k < |answers| ==> ',' !in answers[k] && '\n' !in answers[k]
    ensures ParseLine(Join(answers, [','])) == FromFields(answers)
  {
    FieldsOfJoin(answers);
  }

  // ---------------------------------------------------------------- aggregates

  /** The salaries added up in list order. */
  function SalarySum(es: seq<EmpRecord>): real {
    if es == [] then 0.0 else SalarySum(es[..|es| - 1]) + es[|es| - 1].salary
  }

  /** The ages added up in list order. */
  function AgeSum(es: seq<EmpRecord>): int {
    if es == [] then 0 else AgeSum(es[..|es| - 1]) + es[|es| - 1].age
  }

  /** The largest age of a non-empty list: the value `tuoimax` ends with when it
      starts at the first age and rises to every larger one. */
  function MaxAgeOf(es: seq<EmpRecord>): (m: int)
    requires es != []
    ensures forall k :: 0 <= k < |es| ==> es[k].age <= m
    ensures exists k :: 0 <= k < |es| && es[k].age == m
  {
    if |es| == 1 then es[0].age
    else
      var init := es[..|es| - 1];
      var m := MaxAgeOf(init);
      assert forall k :: 0 <= k < |init| ==> init[k] == es[k];
      if es[|es| - 1].age > m then es[|es| - 1].age else m
  }

  lemma {:induction false} SalarySumAppend(a: seq<EmpRecord>, b: seq<EmpRecord>)
    ensures SalarySum(a + b) == SalarySum(a) + SalarySum(b)
  {
    if b == [] {
      assert a + b == a;
    } else {
      assert (a + b)[..|a + b| - 1] == a + b[..|b| - 1];
      assert (a + b)[|a + b| - 1] == b[|b| - 1];
      SalarySumAppend(a, b[..|b| - 1]);
    }
  }

  /** Changing one salary changes the total by the difference. */
  lemma {:induction false} SalarySumUpdate(es: seq<EmpRecord>, k: nat, salary: real)
    requires k < |es|
    ensures SalarySum(es[k := es[k].(salary := salary)]) == SalarySum(es) - es[k].salary + salary
  {
    var e := es[k].(salary := salary);
    assert es == es[..k] + [es[k]] + es[k + 1..];
    assert es[k := e] == es[..k] + [e] + es[k + 1..];
    SalarySumAppend(es[..k] + [es[k]], es[k + 1..]);
    SalarySumAppend(es[..k] + [e], es[k + 1..]);
    SalarySumAppend(es[..k], [es[k]]);
    SalarySumAppend(es[..k], [e]);
  }

  // ---------------------------------------------------------------- options 7 and 8: adjust salaries

  /** The number of employees with this code. */
  function Matches(es: seq<EmpRecord>, code: string): (n: nat)
    ensures n <= |es|
  {
    if es == [] then 0 else Matches(es[..|es| - 1], code) + (if es[|es| - 1].code == code then 1 else 0)
  }

  /** The change an answer makes to a salary: added for option 7, taken off for
      option 8. */
  function Delta(amount: int, raise: bool): real {
    (if raise then amount else -amount) as real
  }

  /** The `k`-th answer, when there is one and it is an integer. */
  function Amount(amounts: seq<Option<int>>, k: nat): Option<int> {
    if k < |amounts| then amounts[k] else None
  }

  /** Options 7 (`raise`) and 8 on records: in list order, every employee with the
      code takes the next answer as a whole amount added to (or, for option 8,
      taken from) the salary. None when an answer is missing or not an integer;
      otherwise the new records and how many answers were used. */
  function AdjustAll(es: seq<EmpRecord>, code: string, amounts: seq<Option<int>>, raise: bool)
    : Option<(seq<EmpRecord>, nat)>
  {
    if es == [] then Some(([], 0))
    else
      match AdjustAll(es[..|es| - 1], code, amounts, raise)
      case None => None
      case Some((done, used)) =>
        var e := es[|es| - 1];
        if e.code != code then Some((done + [e], used))
        else if Amount(amounts, used).Some? then
          Some((done + [e.(salary := e.salary + Delta(Amount(amounts, used).value, raise))], used + 1))
        else None
  }

  /** Whether the `k`-th employee has the code but finds no integer answer left. */
  predicate Starved(es: seq<EmpRecord>, code: string, amounts: seq<Option<int>>, k: nat)
    requires k < |es|
  {
    es[k].code == code && Amount(amounts, Matches(es[..k], code)).None?
  }

  /** The `k`-th employee after options 7 and 8 when none is starved. */
  function AdjustedAt(es: seq<EmpRecord>, code: string, amounts: seq<Option<int>>, raise: bool, k: nat): EmpRecord
    requires k < |es|
  {
    if es[k].code != code then es[k]
    else es[k].(salary := es[k].salary + Delta(Amount(amounts, Matches(es[..k], code)).GetOr(0), raise))
  }

  /** Options 7 and 8 use one answer per employee with the code and keep the
      number of employees. */
  lemma {:induction false} AdjustAllCounts(es: seq<EmpRecord>, code: string, amounts: seq<Option<int>>, raise: bool)
    ensures AdjustAll(es, code, amounts, raise).Some? ==>
      |AdjustAll(es, code, amounts, raise).value.0| == |es|
      && AdjustAll(es, code, amounts, raise).value.1 == Matches(es, code)
      && AdjustAll(es, code, amounts, raise).value.1 <= |amounts|
  {
    if es != [] {
      AdjustAllCounts(es[..|es| - 1], code, amounts, raise);
    }
  }

  /** Each answer to options 7 and 8 as `int()` reads it. */
  function Amounts(lines: seq<string>): (r: seq<Option<int>>)
    ensures |r| == |lines|
  {
    seq(|lines|, i requires 0 <= i < |lines| => ParseInt(lines[i]))
  }

  /** Options 7 and 8 fail exactly when some employee with the code finds its
      answer missing or not an integer. */
  lemma {:induction false} AdjustAllFails(es: seq<EmpRecord>, code: string, amounts: seq<Option<int>>, raise: bool)
    ensures AdjustAll(es, code, amounts, raise).None? <==> exists k :: 0 <= k < |es| && Starved(es, code, amounts, k)
  {
    if es != [] {
      var n := |es| - 1;
      var init := es[..n];
      AdjustAllFails(init, code, amounts, raise);
      AdjustAllCounts(init, code, amounts, raise);
      forall k | 0 <= k < n ensures Starved(es, code, amounts, k) == Starved(init, code, amounts, k) {
        assert es[..k] == init[..k];
      }
      if AdjustAll(init, code, amounts, raise).None? {
        var k :| 0 <= k < n && Starved(init, code, amounts, k);
        assert Starved(es, code, amounts, k);
      } else {
        assert !exists k :: 0 <= k < n && Starved(es, code, amounts, k);
        assert AdjustAll(es, code, amounts, raise).None? <==> Starved(es, code, amounts, n);
      }
    }
  }

  /** When options 7 and 8 go through, each employee with the code has its salary
      moved by its own answer, with no lower or upper bound, and every other
      employee is unchanged. */
  lemma {:induction false} AdjustAllAt(es: seq<EmpRecord>, code: string, amounts: seq<Option<int>>, raise: bool)
    ensures AdjustAll(es, code, amounts, raise).Some? ==>
      |AdjustAll(es, code, amounts, raise).value.0| == |es|
      && forall k :: 0 <= k < |es| ==> AdjustAll(es, code, amounts, raise).value.0[k] == AdjustedAt(es, code, amounts, raise, k)
  {
    AdjustAllCounts(es, code, amounts, raise);
    if es != [] && AdjustAll(es, code, amounts, raise).Some? {
      var n := |es| - 1;
      var init := es[..n];
      AdjustAllAt(init, code, amounts, raise);
      AdjustAllCounts(init, code, amounts, raise);
      var adjusted := AdjustAll(es, code, amounts, raise).value.0;
      var done := AdjustAll(init, code, amounts, raise).value.0;
      forall k | 0 <= k < |es| ensures adjusted[k] == AdjustedAt(es, code, amounts, raise, k) {
        if k < n {
          assert es[..k] == init[..k];
          assert adjusted[k] == done[k];
        }
      }
    }
  }

  /** A failure on a prefix of the list is a failure on the whole list. */
  lemma {:induction false} AdjustAllPrefixFails(es: seq<EmpRecord>, code: string, amounts: seq<Option<int>>, raise: bool, k: nat)
    requires k <= |es| && AdjustAll(es[..k], code, amounts, raise).None?
    ensures AdjustAll(es, code, amounts, raise).None?
  {
    AdjustAllFails(es[..k], code, amounts, raise);
    var i :| 0 <= i < k && Starved(es[..k], code, amounts, i);
    assert es[..k][..i] == es[..i];
    assert Starved(es, code, amounts, i);
    AdjustAllFails(es, code, amounts, raise);
  }

  /** One more employee through options 7 and 8, as `AdjustAll` takes it. */
  lemma {:induction false} AdjustAllNext(es: seq<EmpRecord>, code: string, amounts: seq<Option<int>>, raise: bool, i: nat,
                      done: seq<EmpRecord>, used: nat)
    requires i < |es| && AdjustAll(es[..i], code, amounts, raise) == Some((done, used))
    ensures es[i].code != code ==> AdjustAll(es[..i + 1], code, amounts, raise) == Some((done + [es[i]], used))
    ensures es[i].code == code && used < |amounts| && amounts[used].Some? ==>
              AdjustAll(es[..i + 1], code, amounts, raise)
              == Some((done + [es[i].(salary := es[i].salary + Delta(amounts[used].value, raise))], used + 1))
    ensures es[i].code == code && !(used < |amounts| && amounts[used].Some?) ==>
              AdjustAll(es[..i + 1], code, amounts, raise).None?
  {
    assert es[..i + 1][..i] == es[..i];
  }

  /** With the code held by nobody, options 7 and 8 read nothing and change nothing. */
  lemma {:induction false} AdjustAbsent(es: seq<EmpRecord>, code: string, amounts: seq<Option<int>>, raise: bool)
    requires forall k :: 0 <= k < |es| ==> es[k].code != code
    ensures AdjustAll(es, code, amounts, raise) == Some((es, 0))
  {
    if es != [] {
      AdjustAbsent(es[..|es| - 1], code, amounts, raise);
      assert es[..|es| - 1] + [es[|es| - 1]] == es;
    }
  }

  /** A list where nobody has the code has no matches. */
  lemma {:induction false} NoMatches(es: seq<EmpRecord>, code: string)
    requires forall j :: 0 <= j < |es| ==> es[j].code != code
    ensures Matches(es, code) == 0
  {
    if es != [] {
      NoMatches(es[..|es| - 1], code);
    }
  }

  /** With the code held by exactly the `k`-th employee, the total salary moves by
      exactly the first answer. */
  lemma {:induction false} AdjustSalarySum(es: seq<EmpRecord>, code: string, amounts: seq<Option<int>>, raise: bool, k: nat)
    requires k < |es| && es[k].code == code
    requires forall j :: 0 <= j < |es| && j != k ==> es[j].code != code
    requires amounts != [] && amounts[0].Some?
    ensures AdjustAll(es, code, amounts, raise).Some?
    ensures SalarySum(AdjustAll(es, code, amounts, raise).value.0)
            == SalarySum(es) + Delta(amounts[0].value, raise)
  {
    AdjustAllFails(es, code, amounts, raise);
    AdjustAllAt(es, code, amounts, raise);
    NoMatches(es[..k], code);
    forall j | 0 <= j < |es| && es[j].code == code ensures j == k {
    }
    assert !Starved(es, code, amounts, k);
    var r := AdjustAll(es, code, amounts, raise).value.0;
    var e := AdjustedAt(es, code, amounts, raise, k);
    assert r == es[k := e];
    SalarySumUpdate(es, k, e.salary);
  }

  // ---------------------------------------------------------------- option 6: delete

  /** What a walk over the rest of a list returns, with the records before it
      and the answers they took put in front. */
  function Prepend(done: seq<EmpRecord>, used: nat, r: Option<(seq<EmpRecord>, nat)>)
    : Option<(seq<EmpRecord>, nat)>
  {
    match r
    case None => None
    case Some((es, u)) => Some((done + es, used + u))
  }

  /** Option 6 on records, as its loop runs: every employee with the code that the
      loop reaches takes the next answer, and "Y" removes it; the list shifts under
      the loop, so the employee right after a removed one is passed over. None when
      an answer is missing; otherwise the remaining records and how many answers
      were used. */
  function DeleteFrom(es: seq<EmpRecord>, code: string, answers: seq<string>)
    : Option<(seq<EmpRecord>, nat)>
    decreases |es|
  {
    if es == [] then Some(([], 0))
    else if es[0].code != code then Prepend([es[0]], 0, DeleteFrom(es[1..], code, answers))
    else if answers == [] then None
    else if answers[0] != "Y" then Prepend([es[0]], 1, DeleteFrom(es[1..], code, answers[1..]))
    else if |es| == 1 then Some(([], 1))
    else Prepend([es[1]], 1, DeleteFrom(es[2..], code, answers[1..]))
  }

  /** The walk never takes more answers than there are, and never lengthens the
      list. */
  lemma {:induction false} DeleteFromCounts(es: seq<EmpRecord>, code: string, answers: seq<string>)
    ensures DeleteFrom(es, code, answers).Some? ==>
      DeleteFrom(es, code, answers).value.1 <= |answers|
      && |DeleteFrom(es, code, answers).value.0| <= |es|
    decreases |es|
  {
    if es == [] {
    } else if es[0].code != code {
      DeleteFromCounts(es[1..], code, answers);
    } else if answers == [] {
    } else if answers[0] != "Y" || |es| == 1 {
      DeleteFromCounts(es[1..], code, answers[1..]);
    } else {
      DeleteFromCounts(es[2..], code, answers[1..]);
    }
  }

  /** Putting nothing in front changes nothing. */
  lemma {:induction false} PrependNothing(r: Option<(seq<EmpRecord>, nat)>)
    ensures Prepend([], 0, r) == r
  {
    if r.Some? {
      assert [] + r.value.0 == r.value.0;
    }
  }

  /** Putting two stretches in front, one after the other, is putting both at once. */
  lemma {:induction false} PrependPrepend(a: seq<EmpRecord>, u: nat, b: seq<EmpRecord>, v: nat, r: Option<(seq<EmpRecord>, nat)>)
    ensures Prepend(a, u, Prepend(b, v, r)) == Prepend(a + b, u + v, r)
  {
    if r.Some? {
      assert a + (b + r.value.0) == (a + b) + r.value.0;
    }
  }

  /** Option 6's loop as written, on the list as it stands: `idx` is the
      position the loop looks at next; removing shifts the list left under it.
      Same result as `DeleteFrom`, the answers it used put in front. */
  function DeleteWalk(rs: seq<EmpRecord>, idx: nat, code: string, answers: seq<string>)
    : Option<(seq<EmpRecord>, nat)>
    decreases |rs| - idx
  {
    if idx >= |rs| then Some((rs, 0))
    else if rs[idx].code != code then DeleteWalk(rs, idx + 1, code, answers)
    else if answers == [] then None
    else if answers[0] == "Y" then Prepend([], 1, DeleteWalk(rs[..idx] + rs[idx + 1..], idx + 1, code, answers[1..]))
    else Prepend([], 1, DeleteWalk(rs, idx + 1, code, answers[1..]))
  }

  /** The loop as written agrees with the walk `DeleteFrom` describes: from any
      point `|kept|` of the list, what is left to walk is `rest`. */
  lemma {:induction false} DeleteWalkFrom(kept: seq<EmpRecord>, rest: seq<EmpRecord>, code: string, answers: seq<string>)
    ensures DeleteWalk(kept + rest, |kept|, code, answers) == Prepend(kept, 0, DeleteFrom(rest, code, answers))
    decreases |rest|
  {
    var rs := kept + rest;
    if rest == [] {
      assert rs == kept + [];
    } else {
      assert rs[|kept|] == rest[0];
      if rest[0].code != code {
        DeleteWalkFrom(kept + [rest[0]], rest[1..], code, answers);
        assert (kept + [rest[0]]) + rest[1..] == rs;
        PrependPrepend(kept, 0, [rest[0]], 0, DeleteFrom(rest[1..], code, answers));
      } else if answers != [] && answers[0] != "Y" {
        DeleteWalkFrom(kept + [rest[0]], rest[1..], code, answers[1..]);
        assert (kept + [rest[0]]) + rest[1..] == rs;
        PrependPrepend(kept, 0, [rest[0]], 1, DeleteFrom(rest[1..], code, answers[1..]));
        PrependPrepend([], 1, kept + [rest[0]], 0, DeleteFrom(rest[1..], code, answers[1..]));
        assert [] + (kept + [rest[0]]) == kept + [rest[0]];
      } else if answers != [] {
        var shifted := rs[..|kept|] + rs[|kept| + 1..];
        assert rs[..|kept|] == kept && rs[|kept| + 1..] == rest[1..];
        if |rest| == 1 {
          assert shifted == kept;
          assert DeleteWalk(shifted, |kept| + 1, code, answers[1..]) == Some((kept, 0));
          assert [] + kept == kept + [];
        } else {
          DeleteWalkFrom(kept + [rest[1]], rest[2..], code, answers[1..]);
          assert rest[1..] == [rest[1]] + rest[2..];
          assert shifted == (kept + [rest[1]]) + rest[2..];
          PrependPrepend(kept, 0, [rest[1]], 1, DeleteFrom(rest[2..], code, answers[1..]));
          PrependPrepend([], 1, kept + [rest[1]], 0, DeleteFrom(rest[2..], code, answers[1..]));
          assert [] + (kept + [rest[1]]) == kept + [rest[1]];
        }
      }
    }
  }

  /** The loop as written, run from the start, is `DeleteFrom`. */
  lemma {:induction false} DeleteWalkIsDeleteFrom(es: seq<EmpRecord>, code: string, answers: seq<string>)
    ensures DeleteWalk(es, 0, code, answers) == DeleteFrom(es, code, answers)
  {
    DeleteWalkFrom([], es, code, answers);
    assert [] + es == es;
    PrependNothing(DeleteFrom(es, code, answers));
  }

  /** Whatever the answers, option 6 only removes employees with the code: every
      employee with another code is still there as often as before. */
  lemma {:induction false} DeleteOnlyMatches(es: seq<EmpRecord>, code: string, answers: seq<string>)
    ensures DeleteFrom(es, code, answers).Some? ==>
      var r := DeleteFrom(es, code, answers).value.0;
      multiset(r) <= multiset(es)
      && forall e: EmpRecord :: e.code != code ==> multiset(r)[e] == multiset(es)[e]
  {
    if es != [] && DeleteFrom(es, code, answers).Some? {
      var r := DeleteFrom(es, code, answers).value.0;
      assert es == [es[0]] + es[1..];
      if es[0].code != code {
        DeleteOnlyMatches(es[1..], code, answers);
        assert r == [es[0]] + DeleteFrom(es[1..], code, answers).value.0;
      } else if answers[0] != "Y" {
        DeleteOnlyMatches(es[1..], code, answers[1..]);
        assert r == [es[0]] + DeleteFrom(es[1..], code, answers[1..]).value.0;
      } else if |es| > 1 {
        DeleteOnlyMatches(es[2..], code, answers[1..]);
        assert es == [es[0]] + [es[1]] + es[2..];
        assert r == [es[1]] + DeleteFrom(es[2..], code, answers[1..]).value.0;
        assert multiset(es) == multiset{es[0]} + multiset{es[1]} + multiset(es[2..]);
      } else {
        assert r == [];
      }
    }
  }

  /** With nobody holding the code, option 6 reads nothing and removes nothing. */
  lemma {:induction false} DeleteAbsent(es: seq<EmpRecord>, code: string, answers: seq<string>)
    requires forall k :: 0 <= k < |es| ==> es[k].code != code
    ensures DeleteFrom(es, code, answers) == Some((es, 0))
  {
    if es != [] {
      DeleteAbsent(es[1..], code, answers);
      assert [es[0]] + es[1..] == es;
    }
  }

  /** With the code held by exactly the `k`-th employee, option 6 reads one answer
      and removes that employee exactly when the answer is "Y"; the others keep
      their order. */
  lemma {:induction false} DeleteUnique(es: seq<EmpRecord>, code: string, answers: seq<string>, k: nat)
    requires k < |es| && es[k].code == code
    requires forall j :: 0 <= j < |es| && j != k ==> es[j].code != code
    requires answers != []
    ensures DeleteFrom(es, code, answers)
            == Some((if answers[0] == "Y" then es[..k] + es[k + 1..] else es, 1))
  {
    if k == 0 {
      DeleteUniqueFirst(es, code, answers);
      assert es[..0] + es[1..] == es[1..];
    } else {
      var tail := es[1..];
      var rest := if answers[0] == "Y" then tail[..k - 1] + tail[k..] else tail;
      assert DeleteFrom(tail, code, answers) == Some((rest, 1)) by {
        assert tail[k - 1] == es[k];
        forall j | 0 <= j < |tail| && j != k - 1 ensures tail[j].code != code {
          assert tail[j] == es[j + 1];
        }
        DeleteUnique(tail, code, answers, k - 1);
      }
      DeleteSkipsFirst(es, code, answers, rest);
      if answers[0] == "Y" {
        DropAfterFirst(es, k);
      } else {
        assert [es[0]] + rest == es;
      }
    }
  }

  /** A first employee without the code stays in front of what the walk over
      the others leaves. */
  lemma DeleteSkipsFirst(es: seq<EmpRecord>, code: string, answers: seq<string>, rest: seq<EmpRecord>)
    requires es != [] && es[0].code != code
    requires DeleteFrom(es[1..], code, answers) == Some((rest, 1))
    ensures DeleteFrom(es, code, answers) == Some(([es[0]] + rest, 1))
  {
  }

  /** Dropping the `k`-th element after the first is dropping it from the whole. */
  lemma DropAfterFirst(es: seq<EmpRecord>, k: nat)
    requires 0 < k < |es|
    ensures [es[0]] + (es[1..][..k - 1] + es[1..][k..]) == es[..k] + es[k + 1..]
  {
    assert es[..k] == [es[0]] + es[1..][..k - 1];
    assert es[k + 1..] == es[1..][k..];
  }

  /** `DeleteUnique` when the code is held by the first employee alone. */
  lemma DeleteUniqueFirst(es: seq<EmpRecord>, code: string, answers: seq<string>)
    requires es != [] && es[0].code == code
    requires forall j :: 1 <= j < |es| ==> es[j].code != code
    requires answers != []
    ensures DeleteFrom(es, code, answers) == Some((if answers[0] == "Y" then es[1..] else es, 1))
  {
    if answers[0] != "Y" {
      assert DeleteFrom(es[1..], code, answers[1..]) == Some((es[1..], 0)) by {
        DeleteAbsent(es[1..], code, answers[1..]);
      }
      assert DeleteFrom(es, code, answers) == Prepend([es[0]], 1, DeleteFrom(es[1..], code, answers[1..]));
      assert [es[0]] + es[1..] == es;
    } else if |es| > 1 {
      assert DeleteFrom(es[2..], code, answers[1..]) == Some((es[2..], 0)) by {
        forall j | 0 <= j < |es[2..]| ensures es[2..][j].code != code {
          assert es[2..][j] == es[j + 2];
        }
        DeleteAbsent(es[2..], code, answers[1..]);
      }
      assert DeleteFrom(es, code, answers) == Prepend([es[1]], 1, DeleteFrom(es[2..], code, answers[1..]));
      assert [es[1]] + es[2..] == es[1..];
    }
  }

  /** The loop passes over the employee right after a removed one: of two adjacent
      employees with the code, confirming the first leaves the second in place
      without asking about it. */
  lemma {:induction false} DeleteSkipsNext(a: EmpRecord, b: EmpRecord, rest: seq<string>)
    requires a.code == b.code
    ensures DeleteFrom([a, b], a.code, ["Y"] + rest) == Some(([b], 1))
  {
    var answers := ["Y"] + rest;
    assert answers[0] == "Y" && answers != [];
    assert [a, b][2..] == [] && [a, b][1] == b;
    assert DeleteFrom([], a.code, answers[1..]) == Some(([], 0));
    assert [b] + [] == [b];
  }
}
