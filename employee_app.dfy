/** The menu loop of Practice/Week_01/Employee/LabEmployee.py: the list
    `dsNhanVien` and the module-level names its options leave behind, and one pass
    through the loop per call of `Step`. Keyboard input is the sequence of lines
    still to be typed; the file of option 1 is a parameter. */
module EmployeeMenu {
  import opened Wrappers
  import opened Text
  import opened Employees
  import opened Sequences

  /** The module-level names the options assign besides the list, as values:
      None for a name the script has not bound yet. */
  datatype Globals = Globals(headcount: Option<int>, totalSalary: Option<real>,
                           averageSalary: Option<real>, averageAge: Option<real>,
                           maxAge: Option<int>)

  /** The options that only show something: they leave the list as it is. */
  const ReadOnly: set<int> := set c | 3 <= c <= 19 && !(6 <= c <= 8)

  /** The list as records and the globals: what a pass of the loop reads and
      changes. */
  datatype EmpState = EmpState(roster: seq<EmpRecord>, globals: Globals)

  /** How a pass ends, the state after it and the input left over. */
  datatype EmpPass = EmpPass(outcome: Outcome, after: EmpState, rest: seq<string>)

  /** One pass of the menu loop on records, for an integer choice already read
      (lines 80-331): a choice outside 1 to 19 ends the program; 1 appends the
      file's employees; 2 appends the employee typed on four lines; 6 deletes
      confirmed employees with a code; 7 and 8 raise or cut the salaries of the
      employees with a code; 9 and 14 bind the head count; 10 binds the salary
      total; 11 and 12 bind the head count and, on a non-empty list, the mean
      salary or age; 13 binds, on a non-empty list, the largest age; 11, 12 and
      13 stop the program on an empty list whose name was never bound; 4 and 5
      read a code; 3 and 15 to 19 change nothing the model keeps. A missing
      answer or a line that does not parse stops the program. */
  function Transition(choice: int, answers: seq<string>, file: Option<seq<string>>, s: EmpState): EmpPass
  {
    if !(1 <= choice <= 19) then EmpPass(Exit, s, answers)
    else if choice == 1 then
      if file.None? || Loaded(Parsed(file.value)).None? then EmpPass(Crash, s, answers)
      else EmpPass(Continue, s.(roster := s.roster + Loaded(Parsed(file.value)).value), answers)
    else if choice == 2 then
      match FromFields(answers)
      case None => EmpPass(Crash, s, answers)
      case Some(r) => EmpPass(Continue, s.(roster := s.roster + [r]), answers[4..])
    else if choice == 6 then
      if answers == [] then EmpPass(Crash, s, answers)
      else
        match DeleteFrom(s.roster, answers[0], answers[1..])
        case None => EmpPass(Crash, s, answers)
        case Some((rs, used)) =>
          DeleteFromCounts(s.roster, answers[0], answers[1..]);
          EmpPass(Continue, s.(roster := rs), answers[1 + used..])
    else if choice == 7 || choice == 8 then
      if answers == [] then EmpPass(Crash, s, answers)
      else
        match AdjustAll(s.roster, answers[0], Amounts(answers[1..]), choice == 7)
        case None => EmpPass(Crash, s, answers)
        case Some((rs, used)) =>
          AdjustAllCounts(s.roster, answers[0], Amounts(answers[1..]), choice == 7);
          EmpPass(Continue, s.(roster := rs), answers[1 + used..])
    else if choice == 4 || choice == 5 then
      if answers == [] then EmpPass(Crash, s, answers) else EmpPass(Continue, s, answers[1..])
    else if choice == 9 || choice == 14 then
      EmpPass(Continue, s.(globals := s.globals.(headcount := Some(|s.roster|))), answers)
    else if choice == 10 then
      EmpPass(Continue, s.(globals := s.globals.(totalSalary := Some(SalarySum(s.roster)))), answers)
    else if choice == 11 then
      var g := s.globals.(headcount := Some(|s.roster|));
      if s.roster != [] then
        EmpPass(Continue, s.(globals := g.(averageSalary := Some(SalarySum(s.roster) / (|s.roster| as real)))), answers)
      else if s.globals.averageSalary.None? then EmpPass(Crash, s, answers)
      else EmpPass(Continue, s.(globals := g), answers)
    else if choice == 12 then
      var g := s.globals.(headcount := Some(|s.roster|));
      if s.roster != [] then
        EmpPass(Continue, s.(globals := g.(averageAge := Some((AgeSum(s.roster) as real) / (|s.roster| as real)))), answers)
      else if s.globals.averageAge.None? then EmpPass(Crash, s, answers)
      else EmpPass(Continue, s.(globals := g), answers)
    else if choice == 13 then
      if s.roster != [] then
        EmpPass(Continue, s.(globals := s.globals.(maxAge := Some(MaxAgeOf(s.roster)))), answers)
      else if s.globals.maxAge.None? then EmpPass(Crash, s, answers)
      else EmpPass(Continue, s, answers)
    else EmpPass(Continue, s, answers)
  }

  /** Only a choice outside 1 to 19 ends the loop; the options that only show
      something keep the list, the others keep the globals; only 1 and 2 lengthen
      the list, 2 by one employee, both at its end; 6 never lengthens it and 7
      and 8 keep its length; a
      pass never consumes more answers than there are. */
  lemma TransitionRoster(choice: int, answers: seq<string>, file: Option<seq<string>>, s: EmpState)
    ensures Transition(choice, answers, file, s).outcome == Exit <==> !(1 <= choice <= 19)
    ensures choice in ReadOnly ==> Transition(choice, answers, file, s).after.roster == s.roster
    ensures choice !in ReadOnly ==> Transition(choice, answers, file, s).after.globals == s.globals
    ensures Transition(choice, answers, file, s).outcome == Crash ==> choice in {1, 2, 4, 5, 6, 7, 8, 11, 12, 13}
    ensures Transition(choice, answers, file, s).outcome == Continue && (choice == 1 || choice == 2) ==>
              Transition(choice, answers, file, s).after.roster[..|s.roster|] == s.roster
    ensures Transition(choice, answers, file, s).outcome == Continue && choice == 2 ==>
              |Transition(choice, answers, file, s).after.roster| == |s.roster| + 1
    ensures Transition(choice, answers, file, s).outcome == Continue && choice == 6 ==>
              |Transition(choice, answers, file, s).after.roster| <= |s.roster|
    ensures Transition(choice, answers, file, s).outcome == Continue && (choice == 7 || choice == 8) ==>
              |Transition(choice, answers, file, s).after.roster| == |s.roster|
    ensures |Transition(choice, answers, file, s).rest| <= |answers|
  {
    var p := Transition(choice, answers, file, s);
    if choice in ReadOnly {
      assert choice !in {1, 2, 6, 7, 8};
    }
    if choice == 1 || choice == 2 {
      if p.outcome == Continue {
        assert p.after.roster[..|s.roster|] == s.roster;
      }
    } else if choice == 6 {
      if answers != [] {
        DeleteFromCounts(s.roster, answers[0], answers[1..]);
      }
    } else if choice == 7 || choice == 8 {
      if answers != [] {
        AdjustAllCounts(s.roster, answers[0], Amounts(answers[1..]), choice == 7);
      }
    }
  }

  /** The state of the script: `dsNhanVien` and the globals `tongsnv`, `sumSalary`,
      `luongtb`, `tuoitb` and `tuoimax`. */
  class EmployeeApp {
    var employees: seq<Employee>
    var headcount: Option<int>
    var totalSalary: Option<real>
    var averageSalary: Option<real>
    var averageAge: Option<real>
    var maxAge: Option<int>

    constructor ()
      ensures employees == [] && Totals() == Globals(None, None, None, None, None)
      ensures Valid()
    {
      employees := [];
      headcount := None;
      totalSalary := None;
      averageSalary := None;
      averageAge := None;
      maxAge := None;
    }

    /** No employee object is listed twice (`list.remove` takes out the first
        entry that is the object). */
    ghost predicate Valid()
      reads this
    {
      forall i, j :: 0 <= i < j < |employees| ==> employees[i] != employees[j]
    }

    /** The listed employees as records. */
    ghost function Roster(): seq<EmpRecord>
      reads this, employees
    {
      Records(employees)
    }

    function Totals(): Globals
      reads this
    {
      Globals(headcount, totalSalary, averageSalary, averageAge, maxAge)
    }

    /** The list and the globals together. */
    ghost function State(): EmpState
      reads this, employees
    {
      EmpState(Roster(), Totals())
    }

    /** `dsNhanVien.append(emp.Employee(...))` with a new employee object. */
    method Append(r: EmpRecord)
      requires Valid()
      modifies this
      ensures Valid()
      ensures |employees| == |old(employees)| + 1 && employees[..|old(employees)|] == old(employees)
      ensures Roster() == old(Roster()) + [r]
      ensures Totals() == old(Totals())
    {
      var e := new Employee(r.code, r.name, r.age, r.salary);
      employees := employees + [e];
    }

    /** Option 1, lines 82-93: every line of the file, in order, becomes an
        employee at the end of the list. A missing file or a line that does not
        parse stops the program. */
    method Load(file: Option<seq<string>>) returns (outcome: Outcome)
      requires Valid()
      modifies this
      ensures Valid()
      ensures outcome != Exit
      ensures outcome == Crash <==> file.None? || Loaded(Parsed(file.value)).None?
      ensures outcome == Continue ==>
                file.Some? && Loaded(Parsed(file.value)).Some?
                && Roster() == old(Roster()) + Loaded(Parsed(file.value)).value
      ensures Totals() == old(Totals())
    {
      if file.None? {
        return Crash;
      }
      outcome := LoadParsed(Parsed(file.value));
    }

    /** Lines 84-92 with each line already read as `ParseLine` reads it. */
    method LoadParsed(ps: seq<Option<EmpRecord>>) returns (outcome: Outcome)
      requires Valid()
      modifies this
      ensures Valid()
      ensures outcome != Exit
      ensures outcome == Crash <==> Loaded(ps).None?
      ensures outcome == Continue ==> Loaded(ps).Some? && Roster() == old(Roster()) + Loaded(ps).value
      ensures Totals() == old(Totals())
    {
      ghost var start := Roster();
      assert start + [] == start;
      for i := 0 to |ps|
        invariant Valid()
        invariant Loaded(ps[..i]).Some? && Roster() == start + Loaded(ps[..i]).value
        invariant Totals() == old(Totals())
      {
        if ps[i].None? {
          return Crash;
        }
        Append(ps[i].value);
        assert ps[..i + 1][..i] == ps[..i];
      }
      assert ps[..|ps|] == ps;
      return Continue;
    }

    /** Option 2, lines 94-100: code, name, `int` age and `float` salary, one line
        each, become an employee at the end of the list. */
    method Add(lines: seq<string>) returns (outcome: Outcome, rest: seq<string>)
      requires Valid()
      modifies this
      ensures Valid()
      ensures outcome != Exit
      ensures outcome == Crash <==> FromFields(lines).None?
      ensures outcome == Continue ==>
                FromFields(lines).Some? && |lines| >= 4 && rest == lines[4..]
                && Roster() == old(Roster()) + [FromFields(lines).value]
      ensures Totals() == old(Totals())
    {
      var r := FromFields(lines);
      if r.None? {
        return Crash, lines;
      }
      Append(r.value);
      return Continue, lines[4..];
    }

    /** Option 6, lines 157-171: the first line is the code; the loop asks for a
        confirmation at every employee with the code that it reaches. */
    method Delete(lines: seq<string>) returns (outcome: Outcome, rest: seq<string>)
      requires Valid()
      modifies this
      ensures Valid()
      ensures outcome != Exit
      ensures lines == [] ==> outcome == Crash
      ensures lines != [] ==>
                (outcome == Crash <==> DeleteFrom(old(Roster()), lines[0], lines[1..]).None?)
      ensures outcome == Continue ==>
                lines != [] && DeleteFrom(old(Roster()), lines[0], lines[1..]).Some?
                && var d := DeleteFrom(old(Roster()), lines[0], lines[1..]).value;
                   Roster() == d.0 && 1 + d.1 <= |lines| && rest == lines[1 + d.1..]
      ensures Totals() == old(Totals())
    {
      if lines == [] {
        return Crash, lines;
      }
      var ok, used := DeleteWith(lines[0], lines[1..]);
      if !ok {
        return Crash, lines;
      }
      return Continue, lines[1 + used..];
    }

    /** Lines 163-169: an index walk over the list that removes the confirmed
        employee where it stands and moves on to the next index, so the employee
        that slides into the freed place is not looked at. */
    method DeleteWith(code: string, answers: seq<string>) returns (ok: bool, used: nat)
      requires Valid()
      modifies this
      ensures Valid()
      ensures ok <==> DeleteFrom(old(Roster()), code, answers).Some?
      ensures ok ==> Roster() == DeleteFrom(old(Roster()), code, answers).value.0
                     && used == DeleteFrom(old(Roster()), code, answers).value.1 <= |answers|
      ensures Totals() == old(Totals())
    {
      ghost var es := Roster();
      DeleteWalkIsDeleteFrom(es, code, answers);
      used := 0;
      var idx := 0;
      assert answers[used..] == answers;
      PrependNothing(DeleteWalk(es, 0, code, answers));
      while idx < |employees|
        invariant Valid()
        invariant used <= |answers|
        invariant DeleteWalk(es, 0, code, answers) == Prepend([], used, DeleteWalk(Roster(), idx, code, answers[used..]))
        invariant Totals() == old(Totals())
        decreases |employees| - idx
      {
        ghost var cur := Roster();
        var e := employees[idx];
        assert e.Record() == cur[idx];
        if e.code == code {
          if used == |answers| {
            return false, used;
          }
          assert answers[used..][1..] == answers[used + 1..];
          var confirm := answers[used];
          if confirm == "Y" {
            RemoveAt(idx);
          }
          PrependPrepend([], used, [], 1, DeleteWalk(Roster(), idx + 1, code, answers[used + 1..]));
          ghost var none: seq<EmpRecord> := [];
          assert none + none == none;
          used := used + 1;
        }
        idx := idx + 1;
      }
      return true, used;
    }

    /** `dsNhanVien.remove(item)` for the object at `idx`. */
    method RemoveAt(idx: nat)
      requires Valid() && idx < |employees|
      modifies this
      ensures Valid()
      ensures employees == old(employees[..idx] + employees[idx + 1..])
      ensures Roster() == old(Roster()[..idx] + Roster()[idx + 1..])
      ensures Totals() == old(Totals())
    {
      employees := employees[..idx] + employees[idx + 1..];
    }

    /** Options 7 (`raise`) and 8, lines 172-195: the first line is the code;
        every employee with it takes the next line as a whole amount. */
    method Adjust(lines: seq<string>, raise: bool) returns (outcome: Outcome, rest: seq<string>)
      requires Valid()
      modifies employees
      ensures outcome != Exit
      ensures lines == [] ==> outcome == Crash
      ensures lines != [] ==>
                (outcome == Crash <==> AdjustAll(old(Roster()), lines[0], Amounts(lines[1..]), raise).None?)
      ensures outcome == Continue ==>
                lines != [] && AdjustAll(old(Roster()), lines[0], Amounts(lines[1..]), raise).Some?
                && var a := AdjustAll(old(Roster()), lines[0], Amounts(lines[1..]), raise).value;
                   Roster() == a.0 && 1 + a.1 <= |lines| && rest == lines[1 + a.1..]
    {
      if lines == [] {
        return Crash, lines;
      }
      var ok, used := AdjustWith(lines[0], Amounts(lines[1..]), raise);
      if !ok {
        return Crash, lines;
      }
      return Continue, lines[1 + used..];
    }

    /** Lines 178-183 and 190-195 with the answers after the code, each as
        `int()` reads it. */
    method AdjustWith(code: string, amounts: seq<Option<int>>, raise: bool) returns (ok: bool, used: nat)
      requires Valid()
      modifies employees
      ensures ok <==> AdjustAll(old(Roster()), code, amounts, raise).Some?
      ensures ok ==> Roster() == AdjustAll(old(Roster()), code, amounts, raise).value.0
                     && used == AdjustAll(old(Roster()), code, amounts, raise).value.1 <= |amounts|
    {
      ghost var es := Roster();
      used := 0;
      var i := 0;
      while i < |employees|
        invariant employees == old(employees) && Valid()
        invariant i <= |employees| && |Roster()| == |es|
        invariant AdjustAll(es[..i], code, amounts, raise) == Some((Roster()[..i], used))
        invariant Roster()[i..] == es[i..]
      {
        ok, used := AdjustNext(i, code, amounts, raise, used, es);
        if !ok {
          return false, used;
        }
        i := i + 1;
      }
      assert AdjustAll(es, code, amounts, raise) == Some((Roster(), used)) by {
        assert es[..i] == es && Roster()[..i] == Roster();
      }
      assert used <= |amounts| by {
        AdjustAllCounts(es, code, amounts, raise);
      }
      return true, used;
    }

    /** One pass of the loop at lines 178-183 (190-195): the `i`-th employee, when
        it has the code, takes the next answer as the amount; false when that
        answer is missing or not a number, in which case the option as a whole
        fails. */
    method AdjustNext(i: nat, code: string, amounts: seq<Option<int>>, raise: bool, used: nat,
                      ghost es: seq<EmpRecord>) returns (ok: bool, next: nat)
      requires Valid() && i < |employees| && |Roster()| == |es|
      requires AdjustAll(es[..i], code, amounts, raise) == Some((Roster()[..i], used))
      requires Roster()[i..] == es[i..]
      modifies employees[i]
      ensures |Roster()| == |es|
      ensures ok ==> AdjustAll(es[..i + 1], code, amounts, raise) == Some((Roster()[..i + 1], next))
                     && Roster()[i + 1..] == es[i + 1..]
      ensures !ok ==> AdjustAll(es, code, amounts, raise).None?
    {
      ghost var cur := Roster();
      ghost var done := cur[..i];
      assert cur[i] == es[i];
      var e := employees[i];
      if e.code != code {
        assert AdjustAll(es[..i + 1], code, amounts, raise) == Some((done + [cur[i]], used)) by {
          AdjustAllNext(es, code, amounts, raise, i, done, used);
        }
        assert cur[..i + 1] == done + [cur[i]];
        return true, used;
      }
      if used >= |amounts| || amounts[used].None? {
        assert AdjustAll(es, code, amounts, raise).None? by {
          AdjustAllNext(es, code, amounts, raise, i, done, used);
          AdjustAllPrefixFails(es, code, amounts, raise, i + 1);
        }
        return false, used;
      }
      e.salary := e.salary + Delta(amounts[used].value, raise);
      ghost var after := Roster();
      assert AdjustAll(es[..i + 1], code, amounts, raise) == Some((done + [after[i]], used + 1)) by {
        AdjustAllNext(es, code, amounts, raise, i, done, used);
      }
      assert after[..i + 1] == done + [after[i]] && after[i + 1..] == es[i + 1..] by {
        forall j | 0 <= j < |after| && j != i ensures after[j] == cur[j] {
          assert employees[j] != e;
        }
        UpdateSplits(cur, after, i);
      }
      return true, used + 1;
    }

    /** Options 9 and 14, lines 196-205 and 249-258: `tongsnv` counts the list. */
    method Count() returns (n: int)
      modifies this
      ensures n == |employees| && employees == old(employees)
      ensures Totals() == old(Totals()).(headcount := Some(n))
    {
      headcount := Some(0);
      for i := 0 to |employees|
        invariant headcount == Some(i)
        invariant employees == old(employees)
        invariant Totals() == old(Totals()).(headcount := Some(i))
      {
        headcount := Some(headcount.value + 1);
      }
      n := headcount.value;
    }

    /** Option 10, lines 206-210: `sumSalary` adds up the salaries. */
    method SumSalary() returns (total: real)
      modifies this
      ensures total == SalarySum(Roster()) && employees == old(employees)
      ensures Totals() == old(Totals()).(totalSalary := Some(total))
    {
      totalSalary := Some(0.0);
      for i := 0 to |employees|
        invariant employees == old(employees)
        invariant totalSalary == Some(SalarySum(Roster()[..i]))
        invariant Totals() == old(Totals()).(totalSalary := totalSalary)
      {
        assert Roster()[..i + 1][..i] == Roster()[..i];
        totalSalary := Some(totalSalary.value + employees[i].salary);
      }
      assert Roster()[..|employees|] == Roster();
      total := totalSalary.value;
    }

    /** Option 11, lines 211-223: the mean salary, bound to `luongtb` inside the
        loop; on an empty list the name keeps its old value, and printing it
        before it was ever bound stops the program. */
    method AverageSalary() returns (outcome: Outcome, shown: real)
      modifies this
      ensures employees == old(employees) && outcome != Exit
      ensures headcount == Some(|employees|)
      ensures totalSalary == old(totalSalary) && averageAge == old(averageAge) && maxAge == old(maxAge)
      ensures |employees| > 0 ==>
                outcome == Continue && shown == SalarySum(Roster()) / (|employees| as real)
                && averageSalary == Some(shown)
      ensures |employees| == 0 ==>
                averageSalary == old(averageSalary) && (outcome == Crash <==> averageSalary.None?)
                && (outcome == Continue ==> shown == averageSalary.value)
    {
      headcount := Some(0);
      var total := 0.0;
      for i := 0 to |employees|
        invariant employees == old(employees)
        invariant headcount == Some(i) && total == SalarySum(Roster()[..i])
        invariant totalSalary == old(totalSalary) && averageAge == old(averageAge) && maxAge == old(maxAge)
        invariant i > 0 ==> averageSalary == Some(total / (i as real))
        invariant i == 0 ==> averageSalary == old(averageSalary)
      {
        assert Roster()[..i + 1][..i] == Roster()[..i];
        headcount := Some(headcount.value + 1);
        total := total + employees[i].salary;
        averageSalary := Some(total / (headcount.value as real));
      }
      assert Roster()[..|employees|] == Roster();
      if averageSalary.None? {
        return Crash, 0.0;
      }
      return Continue, averageSalary.value;
    }

    /** Option 12, lines 224-236: the mean age, bound to `tuoitb` the same way. */
    method AverageAge() returns (outcome: Outcome, shown: real)
      modifies this
      ensures employees == old(employees) && outcome != Exit
      ensures headcount == Some(|employees|)
      ensures totalSalary == old(totalSalary) && averageSalary == old(averageSalary) && maxAge == old(maxAge)
      ensures |employees| > 0 ==>
                outcome == Continue && shown == (AgeSum(Roster()) as real) / (|employees| as real)
                && averageAge == Some(shown)
      ensures |employees| == 0 ==>
                averageAge == old(averageAge) && (outcome == Crash <==> averageAge.None?)
                && (outcome == Continue ==> shown == averageAge.value)
    {
      var totalAge := 0;
      headcount := Some(0);
      for i := 0 to |employees|
        invariant employees == old(employees)
        invariant headcount == Some(i) && totalAge == AgeSum(Roster()[..i])
        invariant totalSalary == old(totalSalary) && averageSalary == old(averageSalary) && maxAge == old(maxAge)
        invariant i > 0 ==> averageAge == Some((totalAge as real) / (i as real))
        invariant i == 0 ==> averageAge == old(averageAge)
      {
        assert Roster()[..i + 1][..i] == Roster()[..i];
        headcount := Some(headcount.value + 1);
        totalAge := totalAge + employees[i].age;
        averageAge := Some((totalAge as real) / (headcount.value as real));
      }
      assert Roster()[..|employees|] == Roster();
      if averageAge.None? {
        return Crash, 0.0;
      }
      return Continue, averageAge.value;
    }

    /** Option 13, lines 237-248: `tuoimax` starts at the first employee's age and
        rises to every larger one, so it is the largest age in the list; on an
        empty list the name keeps its old value, and printing it unbound stops the
        program. */
    method MaxAge() returns (outcome: Outcome, shown: int)
      modifies this
      ensures employees == old(employees) && outcome != Exit
      ensures Totals() == old(Totals()).(maxAge := maxAge)
      ensures |employees| > 0 ==>
                outcome == Continue && maxAge == Some(shown)
                && (forall k :: 0 <= k < |employees| ==> Roster()[k].age <= shown)
                && (exists k :: 0 <= k < |employees| && Roster()[k].age == shown)
                && shown == MaxAgeOf(Roster())
      ensures |employees| == 0 ==>
                maxAge == old(maxAge) && (outcome == Crash <==> maxAge.None?)
                && (outcome == Continue ==> shown == maxAge.value)
    {
      if |employees| > 0 {
        maxAge := Some(employees[0].age);
        assert Roster()[0].age == maxAge.value;
        for i := 0 to |employees|
          invariant employees == old(employees)
          invariant Totals() == old(Totals()).(maxAge := maxAge)
          invariant maxAge.Some?
          invariant forall k :: 0 <= k < i ==> Roster()[k].age <= maxAge.value
          invariant exists k :: 0 <= k < |employees| && Roster()[k].age == maxAge.value
        {
          if employees[i].age > maxAge.value {
            maxAge := Some(employees[i].age);
            assert Roster()[i].age == maxAge.value;
          }
        }
      }
      if |employees| > 0 {
        ghost var m := MaxAgeOf(Roster());
        ghost var k :| 0 <= k < |employees| && Roster()[k].age == maxAge.value;
        ghost var l :| 0 <= l < |employees| && Roster()[l].age == m;
        assert maxAge.value <= m && m <= maxAge.value;
      }
      if maxAge.None? {
        return Crash, 0;
      }
      return Continue, maxAge.value;
    }

    /** One option with the lines typed after the choice: options 1, 2, 6, 7 and 8
        change the list, the others only show something. */
    method Dispatch(choice: int, answers: seq<string>, file: Option<seq<string>>)
      returns (outcome: Outcome, rest: seq<string>)
      requires Valid() && 1 <= choice <= 19
      modifies this, employees
      ensures Valid()
      ensures outcome != Exit
      ensures choice in ReadOnly ==> Roster() == old(Roster())
      ensures choice !in ReadOnly ==> Totals() == old(Totals())
      ensures outcome == Crash ==> choice in {1, 2, 4, 5, 6, 7, 8, 11, 12, 13}
      ensures var p := Transition(choice, answers, file, old(State()));
                outcome == p.outcome && (outcome != Crash ==> State() == p.after && rest == p.rest)
    {
      if choice in ReadOnly {
        outcome, rest := Show(choice, answers);
      } else if choice == 1 {
        outcome, rest := LoadPass(answers, file);
      } else if choice == 2 {
        outcome, rest := AddPass(answers, file);
      } else if choice == 6 {
        outcome, rest := DeletePass(answers, file);
      } else {
        outcome, rest := AdjustPass(choice, answers, file);
      }
    }

    /** Option 1 as a pass of the loop. */
    method LoadPass(answers: seq<string>, file: Option<seq<string>>) returns (outcome: Outcome, rest: seq<string>)
      requires Valid()
      modifies this
      ensures Valid()
      ensures outcome != Exit
      ensures Totals() == old(Totals())
      ensures var p := Transition(1, answers, file, old(State()));
                outcome == p.outcome && (outcome != Crash ==> State() == p.after && rest == p.rest)
    {
      outcome := Load(file);
      rest := answers;
    }

    /** Option 2 as a pass of the loop. */
    method AddPass(answers: seq<string>, file: Option<seq<string>>) returns (outcome: Outcome, rest: seq<string>)
      requires Valid()
      modifies this
      ensures Valid()
      ensures outcome != Exit
      ensures Totals() == old(Totals())
      ensures var p := Transition(2, answers, file, old(State()));
                outcome == p.outcome && (outcome != Crash ==> State() == p.after && rest == p.rest)
    {
      outcome, rest := Add(answers);
    }

    /** Option 6 as a pass of the loop. */
    method DeletePass(answers: seq<string>, file: Option<seq<string>>) returns (outcome: Outcome, rest: seq<string>)
      requires Valid()
      modifies this
      ensures Valid()
      ensures outcome != Exit
      ensures Totals() == old(Totals())
      ensures var p := Transition(6, answers, file, old(State()));
                outcome == p.outcome && (outcome != Crash ==> State() == p.after && rest == p.rest)
    {
      outcome, rest := Delete(answers);
    }

    /** Options 7 and 8 as a pass of the loop. */
    method AdjustPass(choice: int, answers: seq<string>, file: Option<seq<string>>) returns (outcome: Outcome, rest: seq<string>)
      requires choice == 7 || choice == 8
      requires Valid()
      modifies employees
      ensures Valid()
      ensures outcome != Exit
      ensures Totals() == old(Totals())
      ensures var p := Transition(choice, answers, file, old(State()));
                outcome == p.outcome && (outcome != Crash ==> State() == p.after && rest == p.rest)
    {
      outcome, rest := Adjust(answers, choice == 7);
    }

    /** The options that leave the list alone. Options 3 and 15 to 19 show or
        draw and bind nothing the model keeps; 4 and 5 read a code and show the
        employees with it; 9 to 14 bind their totals. */
    method Show(choice: int, answers: seq<string>) returns (outcome: Outcome, rest: seq<string>)
      requires choice in ReadOnly
      modifies this
      ensures employees == old(employees) && Roster() == old(Roster())
      ensures outcome != Exit
      ensures choice in {3, 15, 16, 17, 18, 19} ==>
                outcome == Continue && rest == answers && Totals() == old(Totals())
      ensures choice in {4, 5} ==>
                (outcome == Crash <==> answers == []) && (outcome == Continue ==> rest == answers[1..])
                && Totals() == old(Totals())
      ensures 9 <= choice <= 14 ==> rest == answers
      ensures choice in {9, 10, 14} ==> outcome == Continue
      ensures choice in {9, 14} ==> Totals() == old(Totals()).(headcount := Some(|employees|))
      ensures choice == 10 ==> Totals() == old(Totals()).(totalSalary := Some(SalarySum(Roster())))
      ensures outcome == Crash ==> choice in {4, 5, 11, 12, 13}
      ensures var p := Transition(choice, answers, None, old(State()));
                outcome == p.outcome && (outcome != Crash ==> State() == p.after && rest == p.rest)
    {
      rest := answers;
      outcome := Continue;
      if choice == 4 || choice == 5 {
        if answers == [] {
          return Crash, answers;
        }
        rest := answers[1..];
      } else if choice == 9 || choice == 14 {
        var n := Count();
      } else if choice == 10 {
        var total := SumSalary();
      } else if choice == 11 {
        var shown;
        outcome, shown := AverageSalary();
      } else if choice == 12 {
        var shown;
        outcome, shown := AverageAge();
      } else if choice == 13 {
        var shown;
        outcome, shown := MaxAge();
      }
    }

    /** One pass through the loop, lines 73-80 and 329-331: the first line is the
        choice. Anything `int()` rejects, and the end of input, is caught and the
        loop goes round again; any integer other than 1 to 19 ends the program. */
    method Step(lines: seq<string>, file: Option<seq<string>>) returns (outcome: Outcome, rest: seq<string>)
      requires Valid()
      modifies this, employees
      ensures Valid()
      ensures lines == [] ==> outcome == Continue && rest == []
      ensures outcome == Exit <==>
                lines != [] && ParseInt(lines[0]).Some? && !(1 <= ParseInt(lines[0]).value <= 19)
      ensures lines == [] || ParseInt(lines[0]).None? || outcome == Exit ==>
                Roster() == old(Roster()) && Totals() == old(Totals())
      ensures lines != [] && (ParseInt(lines[0]).None? || outcome == Exit) ==> rest == lines[1..]
      ensures lines != [] && ParseInt(lines[0]).Some? ==>
                var p := Transition(ParseInt(lines[0]).value, lines[1..], file, old(State()));
                outcome == p.outcome && (outcome != Crash ==> State() == p.after && rest == p.rest)
    {
      if lines == [] {
        return Continue, lines;
      }
      var choice := ParseInt(lines[0]);
      if choice.None? {
        return Continue, lines[1..];
      }
      if !(1 <= choice.value <= 19) {
        return Exit, lines[1..];
      }
      outcome, rest := Dispatch(choice.value, lines[1..], file);
    }
  }
}
