/** The data step and the control flow of the user-report script: project each
    user record onto the four report columns, write them, and summarise the
    row count and the distinct company names. The HTTP request, the JSON
    decoder and the file system are not modelled; what each of them returned
    is an input. */
module FetchUsers {
  import opened PyBuiltins

  /** A decoded JSON value as far as the script reads it: `None` (JSON null),
      a `str`, or a `dict`. */
  datatype Value = Null | Str(text: string) | Obj(fields: map<string, Value>)

  datatype Option<T> = None | Some(value: T)

  /** One element of the decoded user list. */
  type Record = map<string, Value>

  /** One line of the report; each column holds what `dict.get` returned. */
  datatype Row = Row(name: Value, username: Value, email: Value, company: Value)

  /** The column names written as the header of the CSV file. */
  const Header: seq<string> := ["Name", "Username", "Email", "Company"]

  /** Python's `d.get(key, default)`: never fails on a missing key. */
  function Get(d: map<string, Value>, key: string, default: Value): Value
  {
    if key in d then d[key] else default
  }

  /** Python's truth value of a decoded JSON value. */
  predicate Truthy(v: Value)
  {
    match v
    case Null => false
    case Str(s) => s != ""
    case Obj(fields) => |fields| > 0
  }

  /** `user.get("company", {})` must be a dict, or `.get("name")` raises
      an AttributeError that nothing catches. */
  predicate Projectable(user: Record)
  {
    "company" in user ==> user["company"].Obj?
  }

  /** The projection of one user record onto the report columns. */
  function ProjectUser(user: Record): (row: Row)
    requires Projectable(user)
    ensures "name" in user ==> row.name == user["name"]
    ensures "name" !in user ==> row.name == Null
    ensures "username" in user ==> row.username == user["username"]
    ensures "username" !in user ==> row.username == Null
    ensures "email" in user ==> row.email == user["email"]
    ensures "email" !in user ==> row.email == Null
    ensures "company" in user && "name" in user["company"].fields ==>
              row.company == user["company"].fields["name"]
    ensures "company" !in user || "name" !in user["company"].fields ==> row.company == Null
  {
    Row(Get(user, "name", Null),
        Get(user, "username", Null),
        Get(user, "email", Null),
        Get(Get(user, "company", Obj(map[])).fields, "name", Null))
  }

  /** The report rows, one per user, built by appending in input order. */
  method Project(users: seq<Record>) returns (data: seq<Row>)
    requires forall i :: 0 <= i < |users| ==> Projectable(users[i])
    ensures |data| == |users|
    ensures forall i :: 0 <= i < |users| ==> data[i] == ProjectUser(users[i])
  {
    data := [];
    for k := 0 to |users|
      invariant |data| == k
      invariant forall i :: 0 <= i < k ==> data[i] == ProjectUser(users[i])
    {
      data := data + [ProjectUser(users[k])];
    }
  }

  /** `set(...)` of the truthy company names needs them hashable: a truthy
      company name that is a dict raises a TypeError that nothing catches. */
  ghost predicate HashableCompanies(data: seq<Row>)
  {
    forall i :: 0 <= i < |data| && Truthy(data[i].company) ==> data[i].company.Str?
  }

  /** The list comprehension over the rows: the truthy company names, in row order. */
  function TruthyCompanies(data: seq<Row>): (names: seq<string>)
    requires HashableCompanies(data)
    ensures forall s :: s in names <==>
              s != "" && exists i :: 0 <= i < |data| && data[i].company == Str(s)
  {
    if data == [] then []
    else
      var rest := TruthyCompanies(data[1..]);
      assert forall i :: 0 <= i < |data[1..]| ==> data[1..][i] == data[i + 1];
      if Truthy(data[0].company) then [data[0].company.text] + rest else rest
  }

  /** The company list of the summary: strictly ascending, and holding exactly
      the non-empty company names that occur in some row. */
  function Companies(data: seq<Row>): (names: seq<string>)
    requires HashableCompanies(data)
    ensures StrictlyAscending(names)
    ensures forall s :: s in names <==>
              s != "" && exists i :: 0 <= i < |data| && data[i].company == Str(s)
  {
    SortedSet(TruthyCompanies(data))
  }

  /** A truthy company name of the record is a `str`, so that `set(...)`
      can hold it. */
  predicate HashableCompany(user: Record)
  {
    "company" in user && user["company"].Obj? && "name" in user["company"].fields
      && Truthy(user["company"].fields["name"])
    ==> user["company"].fields["name"].Str?
  }

  /** The company list read off the user records themselves: a name is listed
      exactly when some record has a `company` dict whose `name` is that
      non-empty string; a record without `company`, or whose company has no
      `name`, contributes nothing. */
  lemma CompaniesOfRecords(users: seq<Record>, data: seq<Row>)
    requires forall i :: 0 <= i < |users| ==> Projectable(users[i]) && HashableCompany(users[i])
    requires |data| == |users| && forall i :: 0 <= i < |users| ==> data[i] == ProjectUser(users[i])
    ensures HashableCompanies(data)
    ensures forall s :: s in Companies(data) <==>
              s != "" && exists i :: 0 <= i < |users| && CompanyName(users[i]) == Some(s)
  {
  }

  /** The string under `user["company"]["name"]`, when there is one. */
  function CompanyName(user: Record): Option<string>
  {
    if "company" in user && user["company"].Obj? && "name" in user["company"].fields
       && user["company"].fields["name"].Str?
    then Some(user["company"].fields["name"].text)
    else None
  }

  /** The classes the exception raised by the request stage belongs to. */
  datatype Failure = Failure(isRequestException: bool, isValueError: bool)

  /** What the request stage (GET, status check, JSON decoding) produced. */
  datatype FetchResult = Fetched(users: seq<Record>) | Raised(failure: Failure)

  /** What opening and writing the CSV file did: `SaveFailed` is an IOError. */
  datatype SaveResult = Saved | SaveFailed

  /** The stages of a run, in the order the script reaches them. */
  datatype Stage = Request | Extract | Save | Summarise

  datatype Message =
    | RequestError        // the API request failed
    | InvalidJson         // the body was not valid JSON
    | WriteError          // the CSV file could not be written
    | Created             // the CSV file was written
    | Summary(total: nat, companies: seq<string>)

  /** What became of `users_report.csv`: not touched, written with a header
      and one line per row, or left as a failed write left it. */
  datatype FileEffect = Untouched | Written(header: seq<string>, rows: seq<Row>) | Indeterminate

  /** The observable outcome of one run. */
  datatype Report = Report(stages: seq<Stage>, file: FileEffect, console: seq<Message>)

  /** One run of the script. Each failing stage reports its own error and ends
      the run: no later stage runs, and the file is touched only by the
      write stage. The first `except` clause that matches wins, so an
      exception that is both a RequestException and a ValueError is reported
      as a request error. */
  method RunReport(fetch: FetchResult, save: SaveResult) returns (report: Report)
    requires fetch.Raised? ==> fetch.failure.isRequestException || fetch.failure.isValueError
    requires fetch.Fetched? ==> forall i :: 0 <= i < |fetch.users| ==> Projectable(fetch.users[i])
    requires fetch.Fetched? && save == Saved ==>
               forall i :: 0 <= i < |fetch.users| ==> HashableCompany(fetch.users[i])
    ensures fetch.Raised? ==> report.stages == [Request] && report.file == Untouched
    ensures fetch.Raised? && fetch.failure.isRequestException ==> report.console == [RequestError]
    ensures fetch.Raised? && !fetch.failure.isRequestException ==> report.console == [InvalidJson]
    ensures fetch.Fetched? && save == SaveFailed ==>
              && report.stages == [Request, Extract, Save]
              && report.file == Indeterminate
              && report.console == [WriteError]
    ensures fetch.Fetched? && save == Saved ==>
              && report.stages == [Request, Extract, Save, Summarise]
              && report.file.Written?
              && report.file.header == Header
              && |report.file.rows| == |fetch.users|
              && (forall i :: 0 <= i < |fetch.users| ==> report.file.rows[i] == ProjectUser(fetch.users[i]))
              && HashableCompanies(report.file.rows)
              && report.console == [Created, Summary(|fetch.users|, Companies(report.file.rows))]
  {
    var stages := [Request];
    var users: seq<Record>;
    match fetch {
      case Raised(failure) =>
        if failure.isRequestException {
          report := Report(stages, Untouched, [RequestError]);
        } else {
          report := Report(stages, Untouched, [InvalidJson]);
        }
        return;
      case Fetched(us) =>
        users := us;
    }

    stages := stages + [Extract];
    var data := Project(users);

    stages := stages + [Save];
    if save == SaveFailed {
      report := Report(stages, Indeterminate, [WriteError]);
      return;
    }
    var file := Written(Header, data);
    var console := [Created];

    stages := stages + [Summarise];
    var totalUsers := |data|;
    CompaniesOfRecords(users, data);
    var companies := Companies(data);
    console := console + [Summary(totalUsers, companies)];
    report := Report(stages, file, console);
  }
}
