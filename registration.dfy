/**
 * Driver registration: the checks the registration form goes through before
 * a row is added to `drivers`, in the order the source makes them, so that
 * the first failing check decides the message shown.
 */
module Registration {
  import opened Wrappers
  import opened Decimal
  import opened Tables

  /** The eight entries of the registration form, as typed. */
  datatype Form = Form(
    name: string,
    age: string,
    gender: string,
    licenseNo: string,
    place: string,
    phone: string,
    username: string,
    password: string)

  /** Why a registration is refused; each has its own message. */
  datatype RegError = EmptyField | AgeNotNumber | Underage | InvalidPhone | UsernameTaken

  const MinimumAge := 18
  const MinimumPhoneLength := 10

  /** The text of the error dialog for each refusal. */
  function Message(e: RegError): string {
    match e
    case EmptyField => "All fields must be filled"
    case AgeNotNumber => "Age must be a number"
    case Underage => "Driver must be at least 18 years old"
    case InvalidPhone => "Please enter a valid phone number"
    case UsernameTaken => "Username already exists"
  }

  /** Every entry is non-empty (`all(values.values())`). */
  predicate Filled(f: Form) {
    f.name != "" && f.age != "" && f.gender != "" && f.licenseNo != ""
    && f.place != "" && f.phone != "" && f.username != "" && f.password != ""
  }

  /** The phone number is digits only and at least ten of them. */
  predicate ValidPhone(phone: string) {
    IsDigits(phone) && |phone| >= MinimumPhoneLength
  }

  /** A driver row the registration form can produce. */
  predicate Acceptable(d: Driver) {
    && d.name != "" && d.gender != "" && d.licenseNo != "" && d.place != ""
    && d.username != "" && d.password != ""
    && d.age >= MinimumAge
    && ValidPhone(d.phone)
  }

  /** The row registration inserts for a form whose age reads as `age`. */
  function RowOf(f: Form, age: int): Driver {
    Driver(f.name, age, f.gender, f.licenseNo, f.place, f.phone, f.username, f.password)
  }

  /**
   * The checks made before the database is consulted: all fields filled,
   * age a number, age at least 18, phone valid, in that order.
   */
  function CheckFields(f: Form): (r: Result<Driver, RegError>)
    ensures r == Err(EmptyField) <==> !Filled(f)
    ensures r == Err(AgeNotNumber) <==> Filled(f) && ParseInt(f.age) == None
    ensures r == Err(Underage) <==> Filled(f) && ParseInt(f.age).Some? && ParseInt(f.age).value < MinimumAge
    ensures r == Err(InvalidPhone) <==>
      Filled(f) && ParseInt(f.age).Some? && ParseInt(f.age).value >= MinimumAge && !ValidPhone(f.phone)
    ensures r.Err? ==> r.error != UsernameTaken
    ensures r.Ok? ==> Acceptable(r.value) && ParseInt(f.age) == Some(r.value.age) && r.value == RowOf(f, r.value.age)
  {
    if !Filled(f) then Err(EmptyField)
    else match ParseInt(f.age)
      case None => Err(AgeNotNumber)
      case Some(age) =>
        if age < MinimumAge then Err(Underage)
        else if !ValidPhone(f.phone) then Err(InvalidPhone)
        else Ok(RowOf(f, age))
  }

  /**
   * All four checks of registration against the usernames already in
   * `drivers`: the row to insert, or the first check that fails.
   */
  function Validate(f: Form, drivers: map<nat, Driver>): (r: Result<Driver, RegError>)
    ensures r.Ok? <==> CheckFields(f).Ok? && f.username !in Usernames(drivers)
    ensures r == Err(UsernameTaken) <==> CheckFields(f).Ok? && f.username in Usernames(drivers)
    ensures r.Err? && r.error != UsernameTaken ==> r == CheckFields(f)
    ensures r.Ok? ==>
      && Acceptable(r.value)
      && r.value.username !in Usernames(drivers)
      && ParseInt(f.age) == Some(r.value.age)
      && r.value == RowOf(f, r.value.age)
  {
    match CheckFields(f)
    case Err(e) => Err(e)
    case Ok(d) => if d.username in Usernames(drivers) then Err(UsernameTaken) else Ok(d)
  }

  /** The form a user fills in to register `d`, with the age written in decimal. */
  function FormOf(d: Driver): Form {
    Form(d.name, ShowInt(d.age), d.gender, d.licenseNo, d.place, d.phone, d.username, d.password)
  }

  /**
   * Registration accepts every driver it could have produced: a form that
   * describes an acceptable driver with a new username yields exactly that
   * row.
   */
  lemma {:induction false} ValidateAcceptsAcceptable(d: Driver, drivers: map<nat, Driver>)
    requires Acceptable(d) && d.username !in Usernames(drivers)
    ensures Validate(FormOf(d), drivers) == Ok(d)
  {
    ParseShowInt(d.age);
  }

  /**
   * A registration that succeeds keeps the username column unique and adds
   * exactly one row, leaving the others as they were.
   */
  lemma RegistrationKeepsUsernamesUnique(db: Db, f: Form)
    requires Valid(db) && Validate(f, db.drivers).Ok?
    ensures
      var r := InsertDriver(db, Validate(f, db.drivers).value);
      Valid(r) && |r.drivers| == |db.drivers| + 1 && Usernames(r.drivers) == Usernames(db.drivers) + {f.username}
  {
  }

  /** Each refusal is told apart from the others by its message. */
  lemma MessagesDistinct(e1: RegError, e2: RegError)
    requires e1 != e2
    ensures Message(e1) != Message(e2)
  {
  }
}
