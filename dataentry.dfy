/** The data-entry page: three forms that validate what was typed, build a department,
    faculty or room record from it, append the record to its list and reset the form. */
module DataEntry {
  import opened Wrappers
  import opened JsText

  datatype Department = Department(id: int, name: string)

  /** A faculty record; a load that does not parse is `NaN` in the page, `None` here. */
  datatype Faculty = Faculty(
    id: int,
    name: string,
    email: string,
    deptId: int,
    maxLoadPerDay: Option<int>,
    maxLoadPerWeek: Option<int>)

  /** A room record; `kind` is the record's `type` field. */
  datatype Room = Room(id: int, name: string, capacity: Option<int>, kind: string, features: seq<string>)

  /** The forms hold what the inputs hold: text. */
  datatype DepartmentForm = DepartmentForm(name: string)
  datatype FacultyForm = FacultyForm(
    name: string,
    email: string,
    deptId: string,
    maxLoadPerDay: string,
    maxLoadPerWeek: string)
  datatype RoomForm = RoomForm(name: string, capacity: string, kind: string, features: seq<string>)

  const EmptyDepartmentForm: DepartmentForm := DepartmentForm("")
  const EmptyFacultyForm: FacultyForm := FacultyForm("", "", "", "6", "20")
  const EmptyRoomForm: RoomForm := RoomForm("", "", "classroom", [])

  /** `parseInt(dept_id) || 1`: the parsed number, or 1 when it is `NaN` or zero. */
  function DeptIdOf(s: string): (r: int)
    ensures r != 0
    ensures ParseInt(s) == Some(r) || r == 1
    ensures ParseInt(s).Some? && ParseInt(s).value != 0 ==> r == ParseInt(s).value
  {
    match ParseInt(s)
    case Some(n) => if n != 0 then n else 1
    case None => 1
  }

  /** A department from the form, or `None` when its name is blank. */
  function BuildDepartment(now: int, form: DepartmentForm): (r: Option<Department>)
    ensures r.None? <==> AllWhitespace(form.name)
    ensures r.Some? ==> r.value.id == now && r.value.name == form.name
  {
    BlankIffAllWhitespace(form.name);
    if IsBlank(form.name) then None else Some(Department(now, form.name))
  }

  /** A faculty member from the form, or `None` when the name or the email is blank. The
      name and email are kept as typed; the department and the loads are parsed. */
  function BuildFaculty(now: int, form: FacultyForm): (r: Option<Faculty>)
    ensures r.None? <==> AllWhitespace(form.name) || AllWhitespace(form.email)
    ensures r.Some? ==> r.value.id == now && r.value.name == form.name && r.value.email == form.email
    ensures r.Some? ==> r.value.deptId == DeptIdOf(form.deptId) && r.value.deptId != 0
    ensures r.Some? ==> r.value.maxLoadPerDay == ParseInt(form.maxLoadPerDay)
    ensures r.Some? ==> r.value.maxLoadPerWeek == ParseInt(form.maxLoadPerWeek)
  {
    BlankIffAllWhitespace(form.name);
    BlankIffAllWhitespace(form.email);
    if IsBlank(form.name) || IsBlank(form.email) then None
    else
      Some(Faculty(now, form.name, form.email, DeptIdOf(form.deptId),
                   ParseInt(form.maxLoadPerDay), ParseInt(form.maxLoadPerWeek)))
  }

  /** A room from the form, or `None` when the name is blank or the capacity is empty
      (only the empty capacity is falsy; a capacity of spaces passes the check). */
  function BuildRoom(now: int, form: RoomForm): (r: Option<Room>)
    ensures r.None? <==> AllWhitespace(form.name) || form.capacity == ""
    ensures r.Some? ==> r.value.id == now && r.value.name == form.name
    ensures r.Some? ==> r.value.capacity == ParseInt(form.capacity)
    ensures r.Some? ==> r.value.kind == form.kind && r.value.features == form.features
  {
    BlankIffAllWhitespace(form.name);
    if IsBlank(form.name) || form.capacity == "" then None
    else Some(Room(now, form.name, ParseInt(form.capacity), form.kind, form.features))
  }

  /** The reset faculty form parses back to loads of 6 per day and 20 per week. */
  lemma DefaultLoads()
    ensures ParseInt(EmptyFacultyForm.maxLoadPerDay) == Some(6)
    ensures ParseInt(EmptyFacultyForm.maxLoadPerWeek) == Some(20)
  {
    NatToStringRoundTrip(6);
    NatToStringRoundTrip(20);
    DecimalDefaults();
  }

  /** The reset form's load fields are 6 and 20 written in decimal. */
  lemma DecimalDefaults()
    ensures NatToString(6) == EmptyFacultyForm.maxLoadPerDay
    ensures NatToString(20) == EmptyFacultyForm.maxLoadPerWeek
  {
    SingleDigitString(6);
    SingleDigitString(2);
    assert NatToString(20) == NatToString(2) + [DigitChar(0)];
  }

  /** A department id typed in decimal is kept. */
  lemma DeptIdDecimal(n: nat)
    requires n > 0
    ensures DeptIdOf(NatToString(n)) == n
  {
    NatToStringRoundTrip(n);
  }

  /** The department id the page always leaves empty becomes department 1. */
  lemma EmptyDeptId()
    ensures DeptIdOf(EmptyFacultyForm.deptId) == 1
  {
    assert ParseInt(EmptyFacultyForm.deptId).None?;
  }

  /** A capacity typed in decimal is the room's capacity. */
  lemma RoomCapacityDecimal(now: int, form: RoomForm, n: nat)
    requires !AllWhitespace(form.name) && form.capacity == NatToString(n)
    ensures BuildRoom(now, form).Some? && BuildRoom(now, form).value.capacity == Some(n)
  {
    NatToStringRoundTrip(n);
  }

  /** Every reset form is rejected as it stands, so pressing "Add" twice adds once. */
  lemma EmptyFormsRejected(now: int)
    ensures BuildDepartment(now, EmptyDepartmentForm).None?
    ensures BuildFaculty(now, EmptyFacultyForm).None?
    ensures BuildRoom(now, EmptyRoomForm).None?
  {
  }

  /** The page's state: the three lists it shares with the rest of the application and
      the three forms. */
  class DataEntryPage {
    var departments: seq<Department>
    var faculties: seq<Faculty>
    var rooms: seq<Room>
    var newDepartment: DepartmentForm
    var newFaculty: FacultyForm
    var newRoom: RoomForm

    /** No input edits the faculty department or the room type and features, so they
        keep their reset values. */
    ghost predicate Valid()
      reads this
    {
      && newFaculty.deptId == ""
      && newRoom.kind == "classroom"
      && newRoom.features == []
    }

    constructor (departments0: seq<Department>, faculties0: seq<Faculty>, rooms0: seq<Room>)
      ensures Valid()
      ensures departments == departments0 && faculties == faculties0 && rooms == rooms0
      ensures newDepartment == EmptyDepartmentForm && newFaculty == EmptyFacultyForm
      ensures newRoom == EmptyRoomForm
    {
      departments, faculties, rooms := departments0, faculties0, rooms0;
      newDepartment, newFaculty, newRoom := EmptyDepartmentForm, EmptyFacultyForm, EmptyRoomForm;
    }

    /** The department name input. */
    method SetDepartmentName(value: string)
      requires Valid()
      modifies this
      ensures Valid()
      ensures newDepartment == DepartmentForm(value)
      ensures departments == old(departments) && faculties == old(faculties) && rooms == old(rooms)
      ensures newFaculty == old(newFaculty) && newRoom == old(newRoom)
    {
      newDepartment := DepartmentForm(value);
    }

    /** The faculty name input. */
    method SetFacultyName(value: string)
      requires Valid()
      modifies this
      ensures Valid()
      ensures newFaculty == old(newFaculty).(name := value)
      ensures departments == old(departments) && faculties == old(faculties) && rooms == old(rooms)
      ensures newDepartment == old(newDepartment) && newRoom == old(newRoom)
    {
      newFaculty := newFaculty.(name := value);
    }

    /** The faculty email input. */
    method SetFacultyEmail(value: string)
      requires Valid()
      modifies this
      ensures Valid()
      ensures newFaculty == old(newFaculty).(email := value)
      ensures departments == old(departments) && faculties == old(faculties) && rooms == old(rooms)
      ensures newDepartment == old(newDepartment) && newRoom == old(newRoom)
    {
      newFaculty := newFaculty.(email := value);
    }

    /** The "Max Load/Day" input. */
    method SetMaxLoadPerDay(value: string)
      requires Valid()
      modifies this
      ensures Valid()
      ensures newFaculty == old(newFaculty).(maxLoadPerDay := value)
      ensures departments == old(departments) && faculties == old(faculties) && rooms == old(rooms)
      ensures newDepartment == old(newDepartment) && newRoom == old(newRoom)
    {
      newFaculty := newFaculty.(maxLoadPerDay := value);
    }

    /** The "Max Load/Week" input. */
    method SetMaxLoadPerWeek(value: string)
      requires Valid()
      modifies this
      ensures Valid()
      ensures newFaculty == old(newFaculty).(maxLoadPerWeek := value)
      ensures departments == old(departments) && faculties == old(faculties) && rooms == old(rooms)
      ensures newDepartment == old(newDepartment) && newRoom == old(newRoom)
    {
      newFaculty := newFaculty.(maxLoadPerWeek := value);
    }

    /** The room name input. */
    method SetRoomName(value: string)
      requires Valid()
      modifies this
      ensures Valid()
      ensures newRoom == old(newRoom).(name := value)
      ensures departments == old(departments) && faculties == old(faculties) && rooms == old(rooms)
      ensures newDepartment == old(newDepartment) && newFaculty == old(newFaculty)
    {
      newRoom := newRoom.(name := value);
    }

    /** The room capacity input. */
    method SetRoomCapacity(value: string)
      requires Valid()
      modifies this
      ensures Valid()
      ensures newRoom == old(newRoom).(capacity := value)
      ensures departments == old(departments) && faculties == old(faculties) && rooms == old(rooms)
      ensures newDepartment == old(newDepartment) && newFaculty == old(newFaculty)
    {
      newRoom := newRoom.(capacity := value);
    }

    /** `addDepartment`: with a blank name nothing changes; otherwise one department with
        the typed name and id `now` is appended and the form is cleared. */
    method AddDepartment(now: int) returns (added: bool)
      requires Valid()
      modifies this
      ensures Valid()
      ensures added <==> BuildDepartment(now, old(newDepartment)).Some?
      ensures !added ==> departments == old(departments) && newDepartment == old(newDepartment)
      ensures added ==> departments == old(departments) + [Department(now, old(newDepartment).name)]
      ensures added ==> newDepartment == EmptyDepartmentForm
      ensures faculties == old(faculties) && rooms == old(rooms)
      ensures newFaculty == old(newFaculty) && newRoom == old(newRoom)
    {
      var department := BuildDepartment(now, newDepartment);
      if department.None? {
        added := false;
      } else {
        AppendDepartment(department.value);
        added := true;
      }
    }

    /** `setDepartments([...departments, department])` and the form reset that follows it. */
    method AppendDepartment(department: Department)
      requires Valid()
      modifies this
      ensures Valid()
      ensures departments == old(departments) + [department] && newDepartment == EmptyDepartmentForm
      ensures faculties == old(faculties) && rooms == old(rooms)
      ensures newFaculty == old(newFaculty) && newRoom == old(newRoom)
    {
      departments := departments + [department];
      newDepartment := EmptyDepartmentForm;
    }

    /** `addFaculty`: with a blank name or email nothing changes; otherwise one faculty
        member built from the form is appended, in department 1 since the page never sets
        one, and the form returns to its defaults. */
    method AddFaculty(now: int) returns (added: bool)
      requires Valid()
      modifies this
      ensures Valid()
      ensures added <==> BuildFaculty(now, old(newFaculty)).Some?
      ensures !added ==> faculties == old(faculties) && newFaculty == old(newFaculty)
      ensures added ==> faculties == old(faculties) + [BuildFaculty(now, old(newFaculty)).value]
      ensures added ==> faculties[|faculties| - 1].deptId == 1
      ensures added ==> newFaculty == EmptyFacultyForm
      ensures departments == old(departments) && rooms == old(rooms)
      ensures newDepartment == old(newDepartment) && newRoom == old(newRoom)
    {
      var faculty := BuildFaculty(now, newFaculty);
      if faculty.None? {
        added := false;
      } else {
        EmptyDeptId();
        AppendFaculty(faculty.value);
        added := true;
      }
    }

    /** `setFaculties([...faculties, faculty])` and the form reset that follows it. */
    method AppendFaculty(faculty: Faculty)
      requires Valid()
      modifies this
      ensures Valid()
      ensures faculties == old(faculties) + [faculty] && newFaculty == EmptyFacultyForm
      ensures departments == old(departments) && rooms == old(rooms)
      ensures newDepartment == old(newDepartment) && newRoom == old(newRoom)
    {
      faculties := faculties + [faculty];
      newFaculty := EmptyFacultyForm;
    }

    /** `addRoom`: with a blank name or an empty capacity nothing changes; otherwise one
        classroom without features is appended and the form is cleared. */
    method AddRoom(now: int) returns (added: bool)
      requires Valid()
      modifies this
      ensures Valid()
      ensures added <==> BuildRoom(now, old(newRoom)).Some?
      ensures !added ==> rooms == old(rooms) && newRoom == old(newRoom)
      ensures added ==> rooms == old(rooms) + [BuildRoom(now, old(newRoom)).value]
      ensures added ==> rooms[|rooms| - 1].kind == "classroom" && rooms[|rooms| - 1].features == []
      ensures added ==> newRoom == EmptyRoomForm
      ensures departments == old(departments) && faculties == old(faculties)
      ensures newDepartment == old(newDepartment) && newFaculty == old(newFaculty)
    {
      var room := BuildRoom(now, newRoom);
      if room.None? {
        added := false;
      } else {
        AppendRoom(room.value);
        added := true;
      }
    }

    /** `setRooms([...rooms, room])` and the form reset that follows it. */
    method AppendRoom(room: Room)
      requires Valid()
      modifies this
      ensures Valid()
      ensures rooms == old(rooms) + [room] && newRoom == EmptyRoomForm
      ensures departments == old(departments) && faculties == old(faculties)
      ensures newDepartment == old(newDepartment) && newFaculty == old(newFaculty)
    {
      rooms := rooms + [room];
      newRoom := EmptyRoomForm;
    }
  }
}
