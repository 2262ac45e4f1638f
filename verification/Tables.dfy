/** The tables the logger, the invoice sync and the location job share. */
module Tables {
  import opened Base

  datatype Place = Place(lat: real, lon: real)

  /** Great-circle distance. No property of it is used, so any function will do. */
  type Metric = (Place, Place) -> real

  /** `date` is in milliseconds since the epoch. */
  datatype Position = Position(
    date: nat, car: Id, drive: Option<Id>, place: Place,
    odometer: Option<real>, ideal: Option<real>, battery: Option<real>)

  datatype Drive = Drive(
    car: Id, startDate: nat, endDate: Option<nat>,
    startPos: Option<Id>, endPos: Option<Id>,
    startKm: Option<real>, endKm: Option<real>, distance: Option<real>, durationMin: Option<int>,
    startIdeal: Option<real>, endIdeal: Option<real>,
    startFence: Option<Id>, endFence: Option<Id>)

  datatype Process = Process(
    car: Id, startDate: nat, endDate: Option<nat>, position: Id,
    added: Option<real>, used: Option<real>, durationMin: Option<int>,
    fence: Option<Id>, cost: Option<real>)

  datatype Charge = Charge(process: Id, date: nat, energy: real, rated: Option<real>)

  /** `efficiency` is `None` for a car registered by a login. */
  datatype Car = Car(vin: string, efficiency: Option<real>)

  datatype Billing = PerKwh | PerMinute | OtherBilling

  datatype Fence = Fence(
    id: Id, center: Place, radius: real,
    costPerUnit: Option<real>, sessionFee: Option<real>, billing: Billing)

  /** `start` is in seconds since the epoch. */
  datatype Invoice = Invoice(vin: string, start: int, total: real, energy: Option<real>, process: Option<Id>)

  datatype HourRow = HourRow(n: nat, ideal: real, battery: Option<real>, odometer: Option<real>)

  /** A car and an hour since the epoch: the primary key of `position_hourly`. */
  type HourKey = (Id, nat)

  /** `fences` is in scan order. `nextHourRow` is the rowid the next row of `position_hourly` gets:
      a replaced row is given a new one, so it only grows. */
  datatype Db = Db(
    metric: Metric,
    cars: map<Id, Car>,
    positions: map<Id, Position>,
    drives: map<Id, Drive>,
    processes: map<Id, Process>,
    charges: map<Id, Charge>,
    hourly: map<HourKey, HourRow>,
    nextHourRow: Id,
    fences: seq<Fence>,
    invoices: map<string, Invoice>)

  function Seconds(date: nat): nat { date / 1000 }

  function Hour(date: nat): nat { date / 3_600_000 }
}
