/** Importing departments and employees from a sheet: src/admin/import/directory-import.ts. */
module DirectoryImport {
  import opened Wrappers
  import opened EventStream
  import opened Identifiers

  const NAME_MAX: nat := 100
  const HEADER_SCAN_ROWS: nat := 10

  /** The sheet's text functions, which rest on the language's case mapping and white space. */
  datatype Strings = Strings(tidy: Text -> Text, nameKey: Text -> Text, headerKey: Text -> Text,
                             lowerWords: Text -> seq<string>, lower: Text -> string, fio: Text, dept: Text)

  datatype Department = Department(id: nat, slug: string, name: Text, enabled: bool)
  datatype Employee = Employee(login: string, displayName: Text, departmentId: nat)
  datatype Header = Header(index: nat, fio: nat, dept: nat)

  type Sheet = seq<seq<Text>>

  /** What becomes of a row. */
  datatype RowClass = Blank | Invalid | Existing | Duplicate | New

  /** The position of the first equal cell, the length of the row if there is none. */
  function IndexOf(row: seq<Text>, key: Text, st: Strings): (i: nat)
    ensures i <= |row| && (i < |row| ==> st.headerKey(row[i]) == key)
    ensures forall j :: 0 <= j < i ==> st.headerKey(row[j]) != key
  {
    if row == [] || st.headerKey(row[0]) == key then 0
    else
      var rest := IndexOf(row[1..], key, st);
      assert forall j :: 0 < j < 1 + rest ==> row[j] == row[1..][j - 1];
      1 + rest
  }

  predicate IsHeader(row: seq<Text>, st: Strings) {
    IndexOf(row, st.fio, st) < |row| && IndexOf(row, st.dept, st) < |row|
  }

  predicate IsFirstHeader(h: Header, rows: Sheet, st: Strings) {
    && h.index < |rows| && h.index < HEADER_SCAN_ROWS && IsHeader(rows[h.index], st)
    && h.fio == IndexOf(rows[h.index], st.fio, st) && h.dept == IndexOf(rows[h.index], st.dept, st)
    && (forall i :: 0 <= i < h.index ==> !IsHeader(rows[i], st))
  }

  lemma SameHeader(h: Header, g: Header, rows: Sheet, st: Strings)
    requires IsFirstHeader(h, rows, st) && IsFirstHeader(g, rows, st)
    ensures h == g
  {
    assert h.index == g.index;
  }

  lemma HeaderFound(h: Header, rows: Sheet, st: Strings)
    requires IsFirstHeader(h, rows, st)
    ensures exists i :: 0 <= i < |rows| && i < HEADER_SCAN_ROWS && IsHeader(rows[i], st)
  {
  }

  /** findHeader: the first of the first ten rows that holds both titles. */
  method FindHeader(rows: Sheet, st: Strings) returns (h: Option<Header>)
    ensures h.None? ==> forall i :: 0 <= i < |rows| && i < HEADER_SCAN_ROWS ==> !IsHeader(rows[i], st)
    ensures h.Some? ==> IsFirstHeader(h.value, rows, st)
  {
    var i := 0;
    while i < |rows| && i < HEADER_SCAN_ROWS
      invariant i <= |rows| && forall j :: 0 <= j < i ==> !IsHeader(rows[j], st)
    {
      var fio, dept := IndexOf(rows[i], st.fio, st), IndexOf(rows[i], st.dept, st);
      if fio < |rows[i]| && dept < |rows[i]| {
        return Some(Header(i, fio, dept));
      }
      i := i + 1;
    }
    h := None;
  }

  function Cell(row: seq<Text>, column: nat): Text {
    if column < |row| then row[column] else []
  }

  function Fio(row: seq<Text>, h: Header, st: Strings): Text {
    st.tidy(Cell(row, h.fio))
  }

  function DeptName(row: seq<Text>, h: Header, st: Strings): Text {
    st.tidy(Cell(row, h.dept))
  }

  predicate IsComplete(row: seq<Text>, h: Header, st: Strings) {
    var fio, dept := Fio(row, h, st), DeptName(row, h, st);
    fio != [] && dept != [] && |fio| <= NAME_MAX && |dept| <= NAME_MAX
  }

  function Key(row: seq<Text>, h: Header, st: Strings): Text {
    st.nameKey(Fio(row, h, st))
  }

  /** The class of row `i`, from the sheet and the names known before the import alone. */
  function ClassOf(rows: Sheet, h: Header, st: Strings, known: set<Text>, i: nat): RowClass
    requires i < |rows|
  {
    if Fio(rows[i], h, st) == [] && DeptName(rows[i], h, st) == [] then Blank
    else if !IsComplete(rows[i], h, st) then Invalid
    else if Key(rows[i], h, st) in known then Existing
    else if SeenBefore(rows, h, st, i) then Duplicate
    else New
  }

  /**
   What makes a row what it is, told by its two cells: blank without both; invalid with one of them
   missing or longer than 100 characters; otherwise existing if its name is known, a duplicate if an
   earlier such row has the same name, and new without either.
   */
  lemma ClassExactly(rows: Sheet, h: Header, st: Strings, known: set<Text>, i: nat)
    requires i < |rows|
    ensures var fio := st.tidy(if h.fio < |rows[i]| then rows[i][h.fio] else []);
            var dept := st.tidy(if h.dept < |rows[i]| then rows[i][h.dept] else []);
            var complete := 0 < |fio| <= 100 && 0 < |dept| <= 100;
            var c := ClassOf(rows, h, st, known, i);
            && (c == Blank <==> fio == [] && dept == [])
            && (c == Invalid <==> !complete && (fio != [] || dept != []))
            && (c == Existing <==> complete && st.nameKey(fio) in known)
            && var unknown := complete && st.nameKey(fio) !in known;
               var seen := exists j :: h.index < j < i && IsComplete(rows[j], h, st) && Key(rows[j], h, st) == st.nameKey(fio);
               (c == Duplicate <==> unknown && seen) && (c == New <==> unknown && !seen)
  {
  }

  /** An earlier complete row of the sheet has the same key. */
  predicate SeenBefore(rows: Sheet, h: Header, st: Strings, i: nat)
    requires i < |rows|
  {
    exists j :: h.index < j < i && IsComplete(rows[j], h, st) && Key(rows[j], h, st) == Key(rows[i], h, st)
  }

  /** The row numbers, as a spreadsheet counts them, of the rows of a class between the header and row `n`. */
  function RowsOf(rows: Sheet, h: Header, st: Strings, known: set<Text>, c: RowClass, n: nat): seq<nat>
    requires n <= |rows|
  {
    if n <= h.index + 1 then []
    else
      RowsOf(rows, h, st, known, c, n - 1) + if ClassOf(rows, h, st, known, n - 1) == c then [n] else []
  }

  /** Every row below the header is in exactly one of the lists, so that the lists add up. */
  lemma {:induction false} RowsAddUp(rows: Sheet, h: Header, st: Strings, known: set<Text>, n: nat)
    requires h.index < n <= |rows|
    ensures |RowsOf(rows, h, st, known, New, n)| + |RowsOf(rows, h, st, known, Existing, n)|
            + |RowsOf(rows, h, st, known, Duplicate, n)| + |RowsOf(rows, h, st, known, Invalid, n)|
            + |RowsOf(rows, h, st, known, Blank, n)| == n - h.index - 1
  {
    if n > h.index + 1 {
      RowsAddUp(rows, h, st, known, n - 1);
    }
  }

  /** A number of a list is the number of a row of that class below the header. */
  lemma {:induction false} RowsOfClass(rows: Sheet, h: Header, st: Strings, known: set<Text>, c: RowClass, n: nat)
    requires n <= |rows|
    ensures forall r :: r in RowsOf(rows, h, st, known, c, n) <==>
              h.index + 1 < r <= n && ClassOf(rows, h, st, known, r - 1) == c
  {
    if n > h.index + 1 {
      RowsOfClass(rows, h, st, known, c, n - 1);
    }
  }

  /** The keys of the new rows before row `n`. */
  function NewKeys(rows: Sheet, h: Header, st: Strings, known: set<Text>, n: nat): set<Text>
    requires n <= |rows|
  {
    set i | h.index < i < n && ClassOf(rows, h, st, known, i) == New :: Key(rows[i], h, st)
  }

  /** A complete row's key is known or is the key of a new row, at the latest its own. */
  lemma {:induction false} CompleteIsCovered(rows: Sheet, h: Header, st: Strings, known: set<Text>, i: nat, n: nat)
    requires h.index < i < n <= |rows| && IsComplete(rows[i], h, st)
    ensures Key(rows[i], h, st) in known + NewKeys(rows, h, st, known, n)
    decreases i
  {
    if SeenBefore(rows, h, st, i) {
      var j :| h.index < j < i && IsComplete(rows[j], h, st) && Key(rows[j], h, st) == Key(rows[i], h, st);
      CompleteIsCovered(rows, h, st, known, j, n);
    }
  }

  /** Once its names are known, a row is neither new nor a duplicate. */
  lemma KnownByNow(rows: Sheet, h: Header, st: Strings, known: set<Text>, later: set<Text>, i: nat)
    requires h.index < i < |rows| && known + NewKeys(rows, h, st, known, |rows|) <= later
    ensures ClassOf(rows, h, st, later, i) != New && ClassOf(rows, h, st, later, i) != Duplicate
  {
    hide NewKeys;
    if IsComplete(rows[i], h, st) {
      CompleteIsCovered(rows, h, st, known, i, |rows|);
    }
  }

  /** The same sheet again has no new row. */
  lemma {:induction false} NothingNewTwice(rows: Sheet, h: Header, st: Strings, known: set<Text>, later: set<Text>, n: nat)
    requires h.index < |rows| && n <= |rows| && known + NewKeys(rows, h, st, known, |rows|) <= later
    ensures RowsOf(rows, h, st, later, New, n) == [] && RowsOf(rows, h, st, later, Duplicate, n) == []
  {
    hide ClassOf, NewKeys;
    if n > h.index + 1 {
      NothingNewTwice(rows, h, st, known, later, n - 1);
      KnownByNow(rows, h, st, known, later, n - 1);
    }
  }

  /** No two new rows share a key, and none has a known one. */
  lemma NewKeysDiffer(rows: Sheet, h: Header, st: Strings, known: set<Text>, i: nat, j: nat)
    requires h.index < i < j < |rows|
    requires ClassOf(rows, h, st, known, i) == New && ClassOf(rows, h, st, known, j) == New
    ensures Key(rows[i], h, st) != Key(rows[j], h, st)
    ensures Key(rows[i], h, st) !in known && Key(rows[j], h, st) !in known
  {
  }

  function Logins(employees: seq<Employee>): set<string> {
    set e | e in employees :: e.login
  }

  function Slugs(departments: seq<Department>): set<string> {
    set d | d in departments :: d.slug
  }

  function NameKeys(employees: seq<Employee>, st: Strings): set<Text> {
    set e | e in employees :: st.nameKey(e.displayName)
  }

  function DepartmentKeys(departments: seq<Department>, st: Strings): set<Text> {
    set d | d in departments :: st.nameKey(d.name)
  }

  predicate LoginsDiffer(employees: seq<Employee>) {
    forall i, j :: 0 <= i < j < |employees| ==> employees[i].login != employees[j].login
  }

  predicate SlugsDiffer(departments: seq<Department>) {
    forall i, j :: 0 <= i < j < |departments| ==> departments[i].slug != departments[j].slug
  }

  /** The tables, departments in the order in which listDepartments gives them. */
  class DirectoryRepo {
    var departments: seq<Department>
    var employees: seq<Employee>
    var nextId: nat

    ghost predicate Valid()
      reads this
    {
      && LoginsDiffer(employees) && SlugsDiffer(departments)
      && (forall i :: 0 <= i < |departments| ==> departments[i].id < nextId)
      && (forall i, j :: 0 <= i < j < |departments| ==> departments[i].id != departments[j].id)
    }

    /** createDepartment: the slug must be free. */
    method CreateDepartment(slug: string, name: Text) returns (d: Department)
      requires Valid() && slug !in Slugs(departments)
      modifies `departments, `nextId
      ensures Valid() && departments == old(departments) + [d] && d.slug == slug && d.name == name && d.enabled
    {
      d := Department(nextId, slug, name, true);
      nextId := nextId + 1;
      departments := departments + [d];
    }

    /** createEmployee: the login must be free. */
    method CreateEmployee(login: string, displayName: Text, departmentId: nat)
      requires Valid() && login !in Logins(employees)
      modifies `employees
      ensures Valid() && employees == old(employees) + [Employee(login, displayName, departmentId)]
    {
      employees := employees + [Employee(login, displayName, departmentId)];
    }
  }

  datatype Created = Created(row: nat, employee: Employee)

  datatype Summary = Summary(rowsTotal: nat, departmentsCreated: seq<Department>, employeesCreated: seq<Created>,
                             skippedExisting: seq<nat>, skippedDuplicate: seq<nat>, invalid: seq<nat>)

  function RowNumbers(created: seq<Created>): seq<nat> {
    if created == [] then [] else RowNumbers(created[..|created| - 1]) + [created[|created| - 1].row]
  }

  function Rows(created: seq<Created>): seq<Employee> {
    if created == [] then [] else Rows(created[..|created| - 1]) + [created[|created| - 1].employee]
  }

  /** The lists of the summary are the classes of the rows before row `n`. */
  predicate Lists(s: Summary, rows: Sheet, h: Header, st: Strings, known: set<Text>, n: nat)
    requires n <= |rows|
  {
    && RowNumbers(s.employeesCreated) == RowsOf(rows, h, st, known, New, n)
    && s.skippedExisting == RowsOf(rows, h, st, known, Existing, n)
    && s.skippedDuplicate == RowsOf(rows, h, st, known, Duplicate, n)
    && s.invalid == RowsOf(rows, h, st, known, Invalid, n)
    && |s.departmentsCreated| <= |s.employeesCreated|
    && s.rowsTotal == |s.employeesCreated| + |s.skippedExisting| + |s.skippedDuplicate| + |s.invalid|
  }

  /** An employee made from a row: the row's name, a valid login, a department of the row's name. */
  predicate MadeFrom(c: Created, rows: Sheet, h: Header, st: Strings, departments: seq<Department>) {
    && h.index + 1 < c.row <= |rows| && c.employee.displayName == Fio(rows[c.row - 1], h, st) && IsLogin(c.employee.login)
    && exists d :: d in departments && d.id == c.employee.departmentId
          && st.nameKey(d.name) == st.nameKey(DeptName(rows[c.row - 1], h, st))
  }

  /** The departments by key, of those with the same key the first. */
  predicate Indexed(depts: map<Text, Department>, departments: seq<Department>, st: Strings) {
    && depts.Keys == DepartmentKeys(departments, st)
    && (forall k :: k in depts ==> depts[k] in departments && st.nameKey(depts[k].name) == k)
  }

  /** What one more department of the list changes. */
  lemma IndexedMore(depts: map<Text, Department>, departments: seq<Department>, d: Department, st: Strings)
    requires Indexed(depts, departments, st)
    ensures var key := st.nameKey(d.name);
            Indexed(if key in depts then depts else depts[key := d], departments + [d], st)
  {
    assert DepartmentKeys(departments + [d], st) == DepartmentKeys(departments, st) + {st.nameKey(d.name)};
  }

  /** A department that is not taken has one with the same key before it. */
  predicate FirstOfKey(depts: map<Text, Department>, departments: seq<Department>, st: Strings) {
    forall i :: 0 <= i < |departments| && !Picked(depts, departments[i], st) ==> HasKeyBefore(departments, i, st)
  }

  predicate Picked(depts: map<Text, Department>, d: Department, st: Strings) {
    st.nameKey(d.name) in depts && depts[st.nameKey(d.name)] == d
  }

  predicate HasKeyBefore(departments: seq<Department>, i: nat, st: Strings)
    requires i < |departments|
  {
    exists j :: 0 <= j < i && st.nameKey(departments[j].name) == st.nameKey(departments[i].name)
  }

  method IndexDepartments(departments: seq<Department>, st: Strings) returns (depts: map<Text, Department>)
    ensures Indexed(depts, departments, st) && FirstOfKey(depts, departments, st)
  {
    hide Indexed;
    depts := map[];
    var i := 0;
    NothingIndexed(st);
    assert departments[..0] == [];
    while i < |departments|
      invariant i <= |departments| && Indexed(depts, departments[..i], st)
      invariant forall k :: 0 <= k < i && !Picked(depts, departments[k], st) ==> HasKeyBefore(departments, k, st)
    {
      var key := st.nameKey(departments[i].name);
      assert departments[..i + 1] == departments[..i] + [departments[i]];
      IndexedMore(depts, departments[..i], departments[i], st);
      IndexedKey(depts, departments, i, st);
      if key !in depts {
        depts := depts[key := departments[i]];
      }
      i := i + 1;
    }
    assert departments[..i] == departments;
  }

  lemma NothingIndexed(st: Strings)
    ensures Indexed(map[], [], st)
  {
  }

  lemma IndexedKey(depts: map<Text, Department>, departments: seq<Department>, i: nat, st: Strings)
    requires i < |departments| && Indexed(depts, departments[..i], st)
    ensures st.nameKey(departments[i].name) in depts ==> HasKeyBefore(departments, i, st)
  {
    var key := st.nameKey(departments[i].name);
    if key in depts {
      var j :| 0 <= j < i && departments[..i][j] == depts[key];
      assert st.nameKey(departments[j].name) == key;
    }
  }

  lemma SlugCount(departments: seq<Department>)
    ensures |Slugs(departments)| <= |departments|
  {
    if departments != [] {
      var n := |departments| - 1;
      SlugCount(departments[..n]);
      assert Slugs(departments) == Slugs(departments[..n]) + {departments[n].slug};
    }
  }

  lemma LoginCount(employees: seq<Employee>)
    ensures |Logins(employees)| <= |employees|
  {
    if employees != [] {
      var n := |employees| - 1;
      LoginCount(employees[..n]);
      assert Logins(employees) == Logins(employees[..n]) + {employees[n].login};
    }
  }

  /** The row's department: the one with the same key, or a new one with a free slug. */
  method DepartmentFor(repo: DirectoryRepo, st: Strings, depts: map<Text, Department>, deptName: Text)
    returns (d: Department, indexed: map<Text, Department>, created: seq<Department>)
    requires repo.Valid() && Indexed(depts, repo.departments, st)
    requires Spacious(|repo.departments|, DEPARTMENT_SLUG_MAX, "-")
    modifies repo`departments, repo`nextId
    ensures repo.Valid() && Indexed(indexed, repo.departments, st) && repo.departments == old(repo.departments) + created
    ensures d in repo.departments && st.nameKey(d.name) == st.nameKey(deptName)
    ensures created == [] ==> d == depts[st.nameKey(deptName)]
    ensures created == if st.nameKey(deptName) in old(DepartmentKeys(repo.departments, st)) then [] else [d]
    ensures created != [] ==> IsSlug(d.slug) && d.name == deptName && d.enabled
    ensures forall e :: e in created ==> SlugFollows(e, old(repo.departments), st)
  {
    var key := st.nameKey(deptName);
    assert forall k :: k in depts <==> k in DepartmentKeys(repo.departments, st);
    if key in depts {
      return depts[key], depts, [];
    }
    SlugCount(repo.departments);
    var slug := FreshId(SlugFromName(st.lower(deptName)), DEPARTMENT_SLUG_MAX, "-", Slugs(repo.departments), false);
    assert IsSlug(slug);
    hide DepartmentKeys, IsSlug, Indexed, Spacious, FirstFree, Slugs;
    d := repo.CreateDepartment(slug, deptName);
    IndexedMore(depts, old(repo.departments), d, st);
    indexed, created := depts[key := d], [d];
  }

  /** A new row: its department, a free login, and the employee. */
  method ImportEmployee(repo: DirectoryRepo, st: Strings, depts: map<Text, Department>, fio: Text, deptName: Text)
    returns (e: Employee, indexed: map<Text, Department>, created: seq<Department>)
    requires repo.Valid() && Indexed(depts, repo.departments, st)
    requires Spacious(|repo.departments|, DEPARTMENT_SLUG_MAX, "-") && Spacious(|repo.employees|, EMPLOYEE_LOGIN_MAX, "")
    modifies repo
    ensures repo.Valid() && Indexed(indexed, repo.departments, st) && repo.departments == old(repo.departments) + created
    ensures created == [] || (|created| == 1 && IsSlug(created[0].slug) && created[0].name == deptName
              && st.nameKey(deptName) !in old(DepartmentKeys(repo.departments, st)))
    ensures repo.employees == old(repo.employees) + [e] && e.displayName == fio && IsLogin(e.login)
    ensures LoginFollows(e, old(repo.employees), st) && forall d :: d in created ==> SlugFollows(d, old(repo.departments), st)
    ensures exists d :: d in repo.departments && d.id == e.departmentId && st.nameKey(d.name) == st.nameKey(deptName)
  {
    hide Spacious, IsId;
    var d;
    d, indexed, created := DepartmentFor(repo, st, depts, deptName);
    LoginCount(repo.employees);
    SmallerFits(|Logins(repo.employees)|, |repo.employees|);
    var login := FreshLogin(st.lowerWords(fio), Logins(repo.employees));
    repo.CreateEmployee(login, fio, d.id);
    e := Employee(login, fio, d.id);
  }

  lemma SmallerFits(size: nat, larger: nat)
    requires size <= larger && Spacious(larger, EMPLOYEE_LOGIN_MAX, "")
    ensures Spacious(size, EMPLOYEE_LOGIN_MAX, "")
  {
  }

  method FreshLogin(words: seq<string>, taken: set<string>) returns (login: string)
    requires Spacious(|taken|, EMPLOYEE_LOGIN_MAX, "")
    ensures FirstFree(login, LoginFromFio(words), EMPLOYEE_LOGIN_MAX, "", taken) && IsLogin(login)
  {
    login := FreshId(LoginFromFio(words), EMPLOYEE_LOGIN_MAX, "", taken, true);
  }

  /** What the loop's sets tell of a complete row is its class. */
  lemma SeenIsNew(rows: Sheet, h: Header, st: Strings, known: set<Text>, i: nat)
    requires h.index < i < |rows| && IsComplete(rows[i], h, st) && Key(rows[i], h, st) !in known
    ensures SeenBefore(rows, h, st, i) <==> Key(rows[i], h, st) in NewKeys(rows, h, st, known, i)
  {
    if SeenBefore(rows, h, st, i) {
      var j :| h.index < j < i && IsComplete(rows[j], h, st) && Key(rows[j], h, st) == Key(rows[i], h, st);
      CompleteIsCovered(rows, h, st, known, j, i);
    }
  }

  /** One more row: its class decides to which list it goes, and whether its key is new. */
  lemma OneMoreRow(rows: Sheet, h: Header, st: Strings, known: set<Text>, i: nat)
    requires h.index < i < |rows|
    ensures forall c :: RowsOf(rows, h, st, known, c, i + 1) ==
              RowsOf(rows, h, st, known, c, i) + (if ClassOf(rows, h, st, known, i) == c then [i + 1] else [])
    ensures NewKeys(rows, h, st, known, i + 1) ==
            NewKeys(rows, h, st, known, i) + if ClassOf(rows, h, st, known, i) == New then {Key(rows[i], h, st)} else {}
  {
    hide ClassOf, Key;
  }

  lemma OneMoreCreated(created: seq<Created>, c: Created)
    ensures RowNumbers(created + [c]) == RowNumbers(created) + [c.row]
    ensures Rows(created + [c]) == Rows(created) + [c.employee]
  {
    assert (created + [c])[..|created|] == created;
  }

  /** The method's test of one row, in the order of the source. */
  method Classify(rows: Sheet, h: Header, st: Strings, existing: set<Text>, seen: set<Text>, i: nat) returns (c: RowClass)
    requires h.index < i < |rows| && seen == NewKeys(rows, h, st, existing, i)
    ensures c == ClassOf(rows, h, st, existing, i)
  {
    var fio, deptName := Fio(rows[i], h, st), DeptName(rows[i], h, st);
    if fio == [] && deptName == [] {
      return Blank;
    }
    if fio == [] || deptName == [] || |fio| > NAME_MAX || |deptName| > NAME_MAX {
      return Invalid;
    }
    var key := st.nameKey(fio);
    if key in existing {
      return Existing;
    }
    SeenIsNew(rows, h, st, existing, i);
    c := if key in seen then Duplicate else New;
  }

  /** The created departments: valid slugs, and names with new keys. */
  predicate DepartmentsFit(created: seq<Department>, before: set<Text>, st: Strings) {
    && (forall i :: 0 <= i < |created| ==> IsSlug(created[i].slug) && st.nameKey(created[i].name) !in before)
    && (forall i, j :: 0 <= i < j < |created| ==> st.nameKey(created[i].name) != st.nameKey(created[j].name))
  }

  ghost predicate LoginFollows(e: Employee, before: seq<Employee>, st: Strings) {
    FirstFree(e.login, LoginFromFio(st.lowerWords(e.displayName)), EMPLOYEE_LOGIN_MAX, "", Logins(before))
  }

  ghost predicate SlugFollows(d: Department, before: seq<Department>, st: Strings) {
    FirstFree(d.slug, SlugFromName(st.lower(d.name)), DEPARTMENT_SLUG_MAX, "-", Slugs(before))
  }

  /** Each item was made by the rule from those before it. */
  ghost predicate EachFollows<T(!new)>(items: seq<T>, rule: (T, seq<T>) -> bool) {
    forall i :: 0 <= i < |items| ==> rule(items[i], items[..i])
  }

  lemma OneMoreFollows<T(!new)>(items: seq<T>, item: T, rule: (T, seq<T>) -> bool)
    requires EachFollows(items, rule) && rule(item, items)
    ensures EachFollows(items + [item], rule)
  {
    assert forall i :: 0 <= i <= |items| ==> (items + [item])[..i] == items[..i];
    assert items[..|items|] == items;
  }

  ghost function LoginRule(employees: seq<Employee>, st: Strings): (Created, seq<Created>) -> bool {
    (c: Created, before: seq<Created>) => LoginFollows(c.employee, employees + Rows(before), st)
  }

  ghost function SlugRule(departments: seq<Department>, st: Strings): (Department, seq<Department>) -> bool {
    (d: Department, before: seq<Department>) => SlugFollows(d, departments + before, st)
  }

  /** Each login and slug was made from its name, against those there were at its turn. */
  ghost predicate IdentifiersFollow(s: Summary, employees: seq<Employee>, departments: seq<Department>, st: Strings) {
    EachFollows(s.employeesCreated, LoginRule(employees, st)) && EachFollows(s.departmentsCreated, SlugRule(departments, st))
  }

  lemma IdentifiersStillFollow(s: Summary, t: Summary, employees: seq<Employee>, departments: seq<Department>, st: Strings,
                               c: Created, more: seq<Department>)
    requires t.employeesCreated == s.employeesCreated + [c] && t.departmentsCreated == s.departmentsCreated + more && |more| <= 1
    ensures (&& LoginFollows(c.employee, employees + Rows(s.employeesCreated), st)
             && (forall d :: d in more ==> SlugFollows(d, departments + s.departmentsCreated, st))
             && IdentifiersFollow(s, employees, departments, st)) ==> IdentifiersFollow(t, employees, departments, st)
  {
    hide LoginFollows, SlugFollows, Rows;
    if && LoginFollows(c.employee, employees + Rows(s.employeesCreated), st)
       && (forall d :: d in more ==> SlugFollows(d, departments + s.departmentsCreated, st))
       && IdentifiersFollow(s, employees, departments, st) {
      OneMoreFollows(s.employeesCreated, c, LoginRule(employees, st));
      if more == [] {
        assert t.departmentsCreated == s.departmentsCreated;
      } else {
        assert more[0] in more && more == [more[0]];
        OneMoreFollows(s.departmentsCreated, more[0], SlugRule(departments, st));
      }
    }
  }

  lemma NothingFollows(employees: seq<Employee>, departments: seq<Department>, st: Strings)
    ensures IdentifiersFollow(Summary(0, [], [], [], [], []), employees, departments, st)
  {
  }

  /** Everything the import has done up to row `n`. */
  ghost predicate Imported(repo: DirectoryRepo, s: Summary, rows: Sheet, h: Header, st: Strings, n: nat,
                           employees: seq<Employee>, departments: seq<Department>)
    reads repo
    requires n <= |rows|
  {
    var known := NameKeys(employees, st);
    && repo.Valid() && Lists(s, rows, h, st, known, n)
    && repo.employees == employees + Rows(s.employeesCreated)
    && repo.departments == departments + s.departmentsCreated
    && (forall c :: c in s.employeesCreated ==> MadeFrom(c, rows, h, st, repo.departments))
    && DepartmentsFit(s.departmentsCreated, DepartmentKeys(departments, st), st)
    && NameKeys(repo.employees, st) == known + NewKeys(rows, h, st, known, n)
  }

  lemma KeysOfBoth(a: seq<Employee>, e: Employee, st: Strings)
    ensures NameKeys(a + [e], st) == NameKeys(a, st) + {st.nameKey(e.displayName)}
  {
  }

  lemma DepartmentKeysOfBoth(a: seq<Department>, b: seq<Department>, st: Strings)
    ensures DepartmentKeys(a + b, st) == DepartmentKeys(a, st) + DepartmentKeys(b, st)
  {
  }

  /** A row that only adds its number to a list. */
  function Skipped(s: Summary, c: RowClass, row: nat): Summary {
    match c {
      case Blank => s
      case Invalid => s.(rowsTotal := s.rowsTotal + 1, invalid := s.invalid + [row])
      case Existing => s.(rowsTotal := s.rowsTotal + 1, skippedExisting := s.skippedExisting + [row])
      case Duplicate => s.(rowsTotal := s.rowsTotal + 1, skippedDuplicate := s.skippedDuplicate + [row])
      case New => s
    }
  }

  lemma SkippedFollows(s: Summary, c: RowClass, row: nat, employees: seq<Employee>, departments: seq<Department>, st: Strings)
    ensures IdentifiersFollow(s, employees, departments, st) ==> IdentifiersFollow(Skipped(s, c, row), employees, departments, st)
  {
    hide EachFollows;
  }

  lemma SkippedRow(repo: DirectoryRepo, s: Summary, rows: Sheet, h: Header, st: Strings, i: nat,
                   employees: seq<Employee>, departments: seq<Department>)
    requires h.index < i < |rows| && Imported(repo, s, rows, h, st, i, employees, departments)
    requires ClassOf(rows, h, st, NameKeys(employees, st), i) != New
    ensures Imported(repo, Skipped(s, ClassOf(rows, h, st, NameKeys(employees, st), i), i + 1),
                     rows, h, st, i + 1, employees, departments)
  {
    hide ClassOf, MadeFrom, DepartmentsFit, NameKeys, DepartmentKeys, DirectoryRepo.Valid;
    OneMoreRow(rows, h, st, NameKeys(employees, st), i);
    assert forall xs: seq<nat> :: xs + [] == xs;
  }

  /** A row that made an employee, and perhaps a department. */
  lemma CreatedRow(repo: DirectoryRepo, s: Summary, t: Summary, rows: Sheet, h: Header, st: Strings, i: nat,
                   employees: seq<Employee>, departments: seq<Department>, e: Employee, more: seq<Department>)
    requires h.index < i < |rows| && ClassOf(rows, h, st, NameKeys(employees, st), i) == New
    requires Lists(s, rows, h, st, NameKeys(employees, st), i)
    requires |more| <= 1
    requires t == s.(rowsTotal := s.rowsTotal + 1, employeesCreated := s.employeesCreated + [Created(i + 1, e)],
                     departmentsCreated := s.departmentsCreated + more)
    requires e.displayName == Fio(rows[i], h, st)
    requires NameKeys(employees + Rows(s.employeesCreated), st) ==
             NameKeys(employees, st) + NewKeys(rows, h, st, NameKeys(employees, st), i)
    ensures Lists(t, rows, h, st, NameKeys(employees, st), i + 1)
    ensures employees + Rows(t.employeesCreated) == employees + Rows(s.employeesCreated) + [e]
    ensures NameKeys(employees + Rows(t.employeesCreated), st) ==
            NameKeys(employees, st) + NewKeys(rows, h, st, NameKeys(employees, st), i + 1)
  {
    hide ClassOf, NameKeys, NewKeys, RowsOf;
    OneMoreRow(rows, h, st, NameKeys(employees, st), i);
    OneMoreCreated(s.employeesCreated, Created(i + 1, e));
    KeysOfBoth(employees + Rows(s.employeesCreated), e, st);
    assert forall xs: seq<nat> :: xs + [] == xs;
  }

  lemma MadeBefore(c: Created, rows: Sheet, h: Header, st: Strings, departments: seq<Department>, more: seq<Department>)
    requires MadeFrom(c, rows, h, st, departments)
    ensures MadeFrom(c, rows, h, st, departments + more)
  {
    var d :| d in departments && d.id == c.employee.departmentId
          && st.nameKey(d.name) == st.nameKey(DeptName(rows[c.row - 1], h, st));
    assert d in departments + more;
  }

  lemma AllMade(created: seq<Created>, last: Created, rows: Sheet, h: Header, st: Strings,
                departments: seq<Department>, more: seq<Department>)
    requires forall c :: c in created ==> MadeFrom(c, rows, h, st, departments)
    requires MadeFrom(last, rows, h, st, departments + more)
    ensures forall c :: c in created + [last] ==> MadeFrom(c, rows, h, st, departments + more)
  {
    forall c | c in created
      ensures MadeFrom(c, rows, h, st, departments + more)
    {
      MadeBefore(c, rows, h, st, departments, more);
    }
  }

  lemma DepartmentsStillFit(created: seq<Department>, more: seq<Department>, departments: seq<Department>, st: Strings)
    requires DepartmentsFit(created, DepartmentKeys(departments, st), st)
    requires more == [] || (|more| == 1 && IsSlug(more[0].slug)
               && st.nameKey(more[0].name) !in DepartmentKeys(departments + created, st))
    ensures DepartmentsFit(created + more, DepartmentKeys(departments, st), st)
  {
    DepartmentKeysOfBoth(departments, created, st);
  }

  /** The loop body for a new row. */
  method ImportNewRow(repo: DirectoryRepo, s: Summary, depts: map<Text, Department>, rows: Sheet, h: Header, st: Strings, i: nat,
                      ghost employees: seq<Employee>, ghost departments: seq<Department>)
    returns (t: Summary, indexed: map<Text, Department>)
    requires h.index < i < |rows| && Imported(repo, s, rows, h, st, i, employees, departments)
    requires Indexed(depts, repo.departments, st) && ClassOf(rows, h, st, NameKeys(employees, st), i) == New
    requires Spacious(|repo.departments|, DEPARTMENT_SLUG_MAX, "-") && Spacious(|repo.employees|, EMPLOYEE_LOGIN_MAX, "")
    modifies repo
    ensures Imported(repo, t, rows, h, st, i + 1, employees, departments)
    ensures Indexed(indexed, repo.departments, st)
    ensures |repo.departments| <= old(|repo.departments|) + 1 && |repo.employees| == old(|repo.employees|) + 1
    ensures IdentifiersFollow(s, employees, departments, st) ==> IdentifiersFollow(t, employees, departments, st)
  {
    hide Indexed, Spacious, ClassOf, NameKeys, DepartmentKeys, DepartmentsFit, Lists, NewKeys, IsId, Fio, DeptName,
         LoginFollows, SlugFollows, IdentifiersFollow;
    var fio, deptName := Fio(rows[i], h, st), DeptName(rows[i], h, st);
    var e, more;
    e, indexed, more := ImportEmployee(repo, st, depts, fio, deptName);
    t := s.(rowsTotal := s.rowsTotal + 1, employeesCreated := s.employeesCreated + [Created(i + 1, e)],
            departmentsCreated := s.departmentsCreated + more);
    CreatedRow(repo, s, t, rows, h, st, i, employees, departments, e, more);
    DepartmentsStillFit(s.departmentsCreated, more, departments, st);
    IdentifiersStillFollow(s, t, employees, departments, st, Created(i + 1, e), more);
    ghost var before := departments + s.departmentsCreated;
    assert before + more == departments + t.departmentsCreated;
    AllMade(s.employeesCreated, Created(i + 1, e), rows, h, st, before, more);
  }

  /**
   importDirectory; `None` is ImportFormatError. The lists of the summary are the classes of the
   rows, and the tables gain exactly what the summary says; both `throw`s for an invalid identifier
   are out of reach.
   */
  method ImportDirectory(repo: DirectoryRepo, rows: Sheet, st: Strings) returns (r: Option<Summary>, ghost h: Header)
    requires repo.Valid()
    requires Spacious(|repo.departments| + |rows|, DEPARTMENT_SLUG_MAX, "-")
    requires Spacious(|repo.employees| + |rows|, EMPLOYEE_LOGIN_MAX, "")
    modifies repo
    ensures repo.Valid()
    ensures r.None? ==>
      && unchanged(repo)
      && (forall i :: 0 <= i < |rows| && i < HEADER_SCAN_ROWS ==> !IsHeader(rows[i], st))
    ensures r.Some? ==>
      && IsFirstHeader(h, rows, st)
      && Imported(repo, r.value, rows, h, st, |rows|, old(repo.employees), old(repo.departments))
      && IdentifiersFollow(r.value, old(repo.employees), old(repo.departments), st)
  {
    h := Header(0, 0, 0);
    var found := FindHeader(rows, st);
    if found.None? {
      return None, h;
    }
    h := found.value;
    var depts := IndexDepartments(repo.departments, st);
    var existing := NameKeys(repo.employees, st);
    var s := ImportRows(repo, rows, found.value, st, depts, existing);
    r := Some(s);
  }

  lemma LessSpace(size: nat, larger: nat)
    requires size <= larger
    ensures Spacious(larger, DEPARTMENT_SLUG_MAX, "-") ==> Spacious(size, DEPARTMENT_SLUG_MAX, "-")
    ensures Spacious(larger, EMPLOYEE_LOGIN_MAX, "") ==> Spacious(size, EMPLOYEE_LOGIN_MAX, "")
  {
  }

  lemma NothingImported(repo: DirectoryRepo, rows: Sheet, h: Header, st: Strings)
    requires h.index < |rows| && repo.Valid()
    ensures Imported(repo, Summary(0, [], [], [], [], []), rows, h, st, h.index + 1, repo.employees, repo.departments)
    ensures NewKeys(rows, h, st, NameKeys(repo.employees, st), h.index + 1) == {}
  {
    assert repo.employees + [] == repo.employees && repo.departments + [] == repo.departments;
  }

  /** The loop over the rows below the header. */
  method ImportRows(repo: DirectoryRepo, rows: Sheet, h: Header, st: Strings, index: map<Text, Department>, existing: set<Text>)
    returns (s: Summary)
    requires repo.Valid() && h.index < |rows| && existing == NameKeys(repo.employees, st)
    requires Indexed(index, repo.departments, st)
    requires Spacious(|repo.departments| + |rows|, DEPARTMENT_SLUG_MAX, "-")
    requires Spacious(|repo.employees| + |rows|, EMPLOYEE_LOGIN_MAX, "")
    modifies repo
    ensures Imported(repo, s, rows, h, st, |rows|, old(repo.employees), old(repo.departments))
    ensures IdentifiersFollow(s, old(repo.employees), old(repo.departments), st)
  {
    hide IdentifiersFollow, Imported, Indexed, Spacious, ClassOf, NameKeys, NewKeys, Key, DirectoryRepo.Valid;
    ghost var employees, departments := repo.employees, repo.departments;
    var depts, seen := index, {};
    s := Summary(0, [], [], [], [], []);
    NothingImported(repo, rows, h, st);
    NothingFollows(employees, departments, st);
    var i := h.index + 1;
    while i < |rows|
      invariant h.index < i <= |rows| && Imported(repo, s, rows, h, st, i, employees, departments)
      invariant IdentifiersFollow(s, employees, departments, st)
      invariant seen == NewKeys(rows, h, st, existing, i) && Indexed(depts, repo.departments, st)
      invariant |repo.departments| <= |departments| + i && |repo.employees| <= |employees| + i
    {
      OneMoreRow(rows, h, st, existing, i);
      var c := Classify(rows, h, st, existing, seen, i);
      if c == New {
        LessSpace(|repo.departments|, |departments| + |rows|);
        LessSpace(|repo.employees|, |employees| + |rows|);
        seen := seen + {Key(rows[i], h, st)};
        s, depts := ImportNewRow(repo, s, depts, rows, h, st, i, employees, departments);
      } else {
        SkippedRow(repo, s, rows, h, st, i, employees, departments);
        SkippedFollows(s, c, i + 1, employees, departments, st);
        s := Skipped(s, c, i + 1);
      }
      i := i + 1;
    }
  }

  /** A second import of a sheet whose names are known by now makes nothing, and every complete row exists. */
  lemma SecondImportMakesNothing(rows: Sheet, h: Header, st: Strings, known: set<Text>, later: set<Text>, again: Summary)
    requires h.index < |rows| && known + NewKeys(rows, h, st, known, |rows|) <= later
    requires Lists(again, rows, h, st, later, |rows|)
    ensures again.employeesCreated == [] && again.departmentsCreated == [] && again.skippedDuplicate == []
  {
    NothingNewTwice(rows, h, st, known, later, |rows|);
    RowNumberCount(again.employeesCreated);
  }

  lemma {:induction false} RowNumberCount(created: seq<Created>)
    ensures |RowNumbers(created)| == |created|
  {
    if created != [] {
      RowNumberCount(created[..|created| - 1]);
    }
  }

  /** Importing the same sheet again leaves both tables as they are. */
  method ImportTwice(repo: DirectoryRepo, rows: Sheet, st: Strings) returns (first: Option<Summary>, second: Option<Summary>)
    requires repo.Valid()
    requires Spacious(|repo.departments| + 2 * |rows|, DEPARTMENT_SLUG_MAX, "-")
    requires Spacious(|repo.employees| + 2 * |rows|, EMPLOYEE_LOGIN_MAX, "")
    modifies repo
    ensures repo.Valid() && (first.None? <==> second.None?)
    ensures second.Some? ==>
      && second.value.employeesCreated == [] && second.value.departmentsCreated == []
      && repo.employees == old(repo.employees) + Rows(first.value.employeesCreated)
      && repo.departments == old(repo.departments) + first.value.departmentsCreated
  {
    hide IdentifiersFollow, Spacious, DirectoryRepo.Valid, MadeFrom, DepartmentsFit, NewKeys, NameKeys, Lists, IsFirstHeader;
    ghost var h, g;
    LessSpace(|repo.departments| + |rows|, |repo.departments| + 2 * |rows|);
    LessSpace(|repo.employees| + |rows|, |repo.employees| + 2 * |rows|);
    first, h := ImportDirectory(repo, rows, st);
    if first.Some? {
      HeaderFound(h, rows, st);
      MadeAtMost(repo, first.value, rows, h, st, old(repo.employees), old(repo.departments));
    }
    LessSpace(|repo.departments| + |rows|, old(|repo.departments|) + 2 * |rows|);
    LessSpace(|repo.employees| + |rows|, old(|repo.employees|) + 2 * |rows|);
    ghost var employees, departments := repo.employees, repo.departments;
    second, g := ImportDirectory(repo, rows, st);
    if second.Some? {
      HeaderFound(g, rows, st);
    }
    if first.Some? && second.Some? {
      SameHeader(h, g, rows, st);
      SecondImportMakesNothing(rows, h, st, NameKeys(old(repo.employees), st), NameKeys(employees, st), second.value);
      assert employees + [] == employees && departments + [] == departments;
    }
  }

  /** An import makes at most one employee, and one department, of a row. */
  lemma MadeAtMost(repo: DirectoryRepo, s: Summary, rows: Sheet, h: Header, st: Strings,
                   employees: seq<Employee>, departments: seq<Department>)
    requires h.index < |rows| && Imported(repo, s, rows, h, st, |rows|, employees, departments)
    ensures |repo.employees| <= |employees| + |rows| && |repo.departments| <= |departments| + |rows|
  {
    hide DepartmentsFit, MadeFrom, NameKeys, NewKeys, DirectoryRepo.Valid;
    RowsAddUp(rows, h, st, NameKeys(employees, st), |rows|);
    RowNumberCount(s.employeesCreated);
    EmployeeCount(s.employeesCreated);
  }

  lemma {:induction false} EmployeeCount(created: seq<Created>)
    ensures |Rows(created)| == |created|
  {
    if created != [] {
      EmployeeCount(created[..|created| - 1]);
    }
  }
}
