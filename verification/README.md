# A model of teslamate-rs

teslamate-rs polls Tesla cars, listens to their stream, and keeps drives, charges, positions and prices in one SQLite
file. This project models the parts of it whose correctness shows only over whole runs, and proves what they keep.

## How it is built

The tables are one value, `Tables.Db`. `Ledger`, `Fences`, `Rollup` and `Invoices` say in one expression each what an
operation does to them. `Connection.dfy`, `Logger.dfy` and `InvoiceSync.dfy` hold the operations in the form the
program gives them: methods that change the tables of a `Connection` statement by statement, with the program's loops
and early returns. Each is proved equal to its expression, so every theorem about expressions is one about the methods
(`Logger.Run` states it for whole runs). The other files prove what runs keep.

| file | what it models |
|---|---|
| Base, Tables | columns, rows, ids, order by date and id |
| Ledger, Logger | polls, streamed rows, closing, completing, repair (src/logger.rs) |
| Sessions | at most one open session, and when an operation runs to its end |
| Changes | each step as a sequence of single changes: what every change keeps, every step keeps; and what it takes when only the filing of a point can break it |
| Integrity, ChargeFacts | what every step and every run of the ledger keeps, whatever id a poll is handed |
| Sweep, ChargeStretches, DriveStretches | what the stale check closes and leaves, and where the polls of one stretch go |
| Columns | what the rows the logger writes say, in terms of the rows they are taken from |
| Roads, Gaps | drives and their points: kept exactly when the row a poll is handed fits |
| SnapshotIds | the id a poll goes on with |
| Witnesses | inputs on which the program does not do what it is for |
| Rollup, RollupRuns | the hourly rollup (src/db.rs), alone and under the ledger |
| Compaction, Sampling | thinning streamed points (src/db.rs), alone and under the ledger |
| Fences, Invoices, InvoiceSync | labels and prices (src/locations.rs), invoices (src/invoices.rs) |
| Jobs, Ownership | the location job (src/app_state.rs), and all owners of a label or a cost together |
| Connection | compaction, rollup, rematch and pricing as statements |
| Sleep, SleepRuns, StreamProbe | when a car is called and when it is left alone (src/sleep.rs, src/logger.rs) |
| StateLog | the history of summaries (src/logger.rs) |
| SlotQueue | the browser's query slots (web/app.js) |
| Scanner, Downsample | scanners over SQL text (src/sql.rs), thinning for charts (src/detail.rs) |

Dates are milliseconds since the epoch. Where the program compares a date with a cutoff cut to whole seconds, or takes
`unixepoch`, so does the model. A `Step` is one whole tick under one clock value. Distances are an arbitrary function;
amounts and readings are reals.

## Where the code differs from what it is for

The model follows the code. These differences are theorems of their own.

1. **The id a poll goes on with.** `persist_snapshot` inserts a position, refreshes its hour, then asks for
   `last_insert_rowid` (src/logger.rs:538-539). The refresh is itself an insert into a table with a rowid of its own
   (schema.sql:239-250), so whenever the hour has an ideal-range row the answer is a rowid of `position_hourly`.
   `SnapshotIds.WrittenPollIsExact` gives the exact condition under which a poll goes on with its own row;
   `EveryLaterPollMisses` shows that one stored streamed row is enough to miss for good until a restart, and
   `FreshPollsAreSound` why the fault stays hidden: on a fresh file that is only polled the two ids grow together. So
   steps carry the id that was handed back, and no theorem about runs assumes that it is the right one. Open sessions,
   references, the order of charges, completed charges, gaps in charges, the rollup, labels and costs hold for any id.
   The rest holds exactly when the row that is filed fits, and fails on polls as the program makes them:

   | property | holds, over any run, exactly when | fails on |
   |---|---|---|
   | closed drives and their points are final | no driving poll files a point of a closed drive (`Roads.ClosedDrivesAreFinal`) | `Witnesses.AClosedDriveLosesAPoint` |
   | points lie on drives of their own car | each row filed is the car's own (`Roads.PointsLieOnTheirCarsDrives`) | `Witnesses.ADriveTakesAnotherCarsPoint` |
   | drives and charges of a car follow each other | each row filed is no earlier than any end of the car (`Roads.SessionsFollowEachOther`) | `Witnesses.TwoDrivesOfOneMinute` |
   | no gap in a drive | each row filed is on the drive already, or near its points and not the bridge between two points of the drive it leaves; and no streamed row comes late (`Gaps.NoDriveHasAGap`) | `Witnesses.ADriveGetsAGap` |
   | streamed rows are spaced, so that compaction removes nothing | each row filed is the car's own, has an ideal range or a bucket to itself, and opens no drive behind a later streamed row (`Sampling.CompactionRemovesNothing`) | `Witnesses.CompactionRemovesARow` |

   The row a poll has just inserted always fits (`Roads.ExactFits`, `Gaps.ExactFilingFits`,
   `Sampling.ExactSampleFits`). Parked polls file free rows only, so they cannot disturb a closed drive.
2. **A car without an efficiency.** A login registers cars with a `NULL` efficiency. Completing a charge then reads
   `NULL` as a number and fails, with every tick that has to complete it (src/logger.rs:981-985).
   `Witnesses.TheFirstChargeBlocks` gets such a car there with its first charging poll, and
   `ChargeFacts.BlockedForGood` shows it never leaves. `Sessions.DriveTickRunsWhen`, `ChargeTickRunsWhen`,
   `IdleTickRunsWhen` and `RestartRunsWhen` say exactly what fails then: every driving and parked poll, every charging
   poll once its charge is stale, and the repair at start, which leaves every later car as it is.
3. **The place (0, 0).** Closing a session does not look it up, the rematch does (src/locations.rs:228-230, 192-205).
   `Ownership.TheOriginIsLabelledByRematchOnly` says when that shows; `Witnesses.AFenceAroundTheOrigin` is such a fence.
4. **Fifteen minutes.** Dates with milliseconds are compared as text with a cutoff in whole seconds, so two
   consecutive readings of one session can be up to 900.999 s apart (`Gaps.FifteenMinutesAndALittle`).
5. **Streamed rows** are never checked for staleness, so they can leave a gap of their own
   (`Witnesses.AStreamedRowComesLate`).
6. **Quoted parentheses.** The backward scanner counts parentheses inside literals, the forward one does not.
   `Scanner.BackwardFindsForward` and `ForwardFindsBackward` give the exact condition each way, and
   `QuotedParenthesisMisleads` and `BackwardStopsInALiteral` a text for each.
7. **The catch-up at start** rebuilds only the newest hours. `Rollup.CatchUpRepairs` says which wrong rollups it
   repairs; `Witnesses.TheCatchUpMissesAnOldHour` is one it does not.

## Model

| member | source | states |
|---|---|---|
| Fences.NearestIsUnique | src/locations.rs:193-199 | what a label means (nearest containing fence, first in scan order among equals) fixes one label for each place |
| Fences.MinByIsNearest | src/locations.rs:193-199 | filtering the fences and taking the first minimum finds that label, or none exactly when no fence contains the place |
| Fences.Nearest | src/locations.rs:192-205 | the label a rematch gives |
| Fences.FindGeofence | src/locations.rs:227-249 | the scan with a running minimum finds the label the rematch would give, except at (0, 0), where it finds none |
| Fences.PriceAddsUp | src/locations.rs:212-218 | a price is NULL exactly without amounts or with an unknown billing, else the fee plus the rate's share of the larger energy; with a rate of at least zero more energy never costs less |
| Fences.PricePerUnit | src/locations.rs:212-218 | two sessions at one fence differ by the rate for each minute, or for each kilowatt-hour of the larger energy; with nothing to bill there is the fee alone |
| Fences.PriceDependsOn | src/locations.rs:209-225 | a price depends on the fence, the energy and the duration only, not on the old cost or label |
| Fences.FenceWritesSay | src/locations.rs:70-117 | a new fence comes last, as given, under an id of its own; an update replaces the fence of its id; deleting one clears the labels that name it and changes no other column |
| Fences.WithoutOne | src/locations.rs:70-117 | and leaves the other fences, in order |
| Fences.PriceCharge | src/locations.rs:253-281 | pricing at close touches one row, and of it only the label and the cost |
| Ledger.CloseDrive | src/logger.rs:782-906 | closing a drive changes only that drive's row (closed or gone) and the drive of positions; no position is lost |
| Ledger.Minutes | src/logger.rs:855-859 | a length in whole minutes, the nearest, half a minute rounding up |
| Ledger.MaxEnergy | src/logger.rs:971 | the greatest energy among the ticks, reached by one of them |
| Columns.LongEnoughIsKept | src/logger.rs:840-854 | closing keeps a drive exactly when it has two points and ten metres lie between its first and its last odometer reading |
| Columns.CloseDriveSays | src/logger.rs:783-906 | and then its ends, dates and length are those of its first and last point, its kilometres those of its first and last odometer reading, its ranges those of its first and last ideal range, or NULL without one; else its points are on no drive; nothing else changes |
| Columns.ClosedDrivesSay | src/logger.rs:782-906 | so does, over every run, each drive closed along the way, as long as no poll takes a point off a closed one |
| Columns.CompleteChargeSays | src/logger.rs:945-1026 | a charge completed ends with its last tick, lasts from its first, added the most any tick reads, and used the rated range gained from the first tick with one to the last times the efficiency, when both are positive; car, start and point stay |
| Columns.EmptyChargeGoes | src/logger.rs:945-963 | a charge without ticks goes, and of the invoices only links to it |
| Columns.SnapshotSays | src/logger.rs:493-540 | the snapshot is one more row, with the greatest id, that says what was read, when and of which car |
| Columns.OnePollHour | src/db.rs:229-242 | in an hour without other ranged rows of the car the bucket is the reading, column by column |
| Columns.StreamSays | src/logger.rs:1233-1294 | a streamed row is stored exactly when every row of its drive, or of the car on no drive, is five seconds older, and then says what was streamed, on the open drive of the greatest id |
| Columns.OpenDriveSays | src/logger.rs:590-604 | a drive opened starts now, at the point it is opened with, with the odometer and the range of the reading |
| Columns.ChargeShowsEnergy | src/logger.rs:615-688 | a charging poll adds one tick, with the energy and range it reads, to the open charge, which shows the energy of its last reading; one that begins starts now, at the point handed |
| Columns.AttachSays | src/logger.rs:748-766 | a free point joins the open drive that started last exactly when an open drive of the car has a point at most fifteen minutes old |
| Columns.ParkingEndsTheDrive | src/logger.rs:542-548 | a parked or charging poll on its own row ends the open drive with that row, when the drive has a point at most fifteen minutes old |
| Ledger.CompleteCharge | src/logger.rs:945-1026 | completing touches one process and the links to a deleted one; a process goes only when it has no tick; a failure changes nothing; the end is the last tick's date |
| Sessions.CloseOpenDrivesCloses | src/logger.rs:768-780 | afterwards the car has no open drive, and no session was opened |
| Sessions.CompleteOpenChargesCloses | src/logger.rs:931-943 | the same for charges, if it runs to its end |
| Sessions.DriveTickSessions | src/logger.rs:566-604 | a driving poll that runs to its end leaves an open drive and no open charge |
| Sessions.ChargeTickSessions | src/logger.rs:606-688 | a charging poll leaves an open charge and no open drive |
| Sessions.IdleTickSessions | src/logger.rs:542-548 | a parked poll leaves no open session |
| Sessions.StreamEndSessions | src/logger.rs:1226-1231 | the end of a stream leaves no open drive of the car, and charges and the drives of other cars as they were |
| Sessions.RepairCloses | src/logger.rs:731-743 | a repair that runs to its end closes every session of every car, however many a crash left open |
| Sessions.RestartCloses | src/logger.rs:731-743 | so does a restart, with the rollup's catch-up before it |
| Sessions.RepairRunsWhen | src/logger.rs:731-743 | with at most one session open for each car, a repair runs to its end exactly when no car it visits is blocked |
| Sessions.RepairStopsAtBlocked | src/logger.rs:731-743 | one blocked car stops it: what that car and every car after it had open stays open |
| Sessions.RestartRunsWhen | src/logger.rs:731-743 | both for the repair at start, over all cars by id |
| Sessions.StepKeepsOneOpen | src/logger.rs:566-688 | each step, with any handed id and even when it fails half-way on an unreadable efficiency, keeps at most one open session for each car |
| Sessions.AtMostOneOpenSession | src/logger.rs:542-688 | over every run, in every state, a car has at most one open session: a drive or a charge, never both |
| Sessions.CompletingFailsWhenBlocked | src/logger.rs:981-991 | completing fails exactly when the car's efficiency is NULL and its open charge has ticks, and then changes nothing |
| Sessions.DriveTickRunsWhen | src/logger.rs:566-604 | with any handed id a driving poll runs to its end exactly when the car is not blocked and it has a drive that is not stale or the row handed exists; with a blocked car it changes nothing |
| Sessions.ChargeTickRunsWhen | src/logger.rs:606-688 | a charging poll runs to its end exactly when the car is not blocked with a stale charge, and it has a charge that goes on or the row handed exists |
| Sessions.IdleTickRunsWhen | src/logger.rs:542-563 | a parked poll runs to its end exactly when the car is not blocked |
| Changes.StepFollows | src/logger.rs:542-1026 | each step, with any handed id, is a sequence of the changes the statements make, each in a state that allows it (a drive or charge is opened only with none open, a tick goes to an open charge of the car that is not stale, a parked poll files a free point): so a preorder that holds of every such change holds of the step |
| Changes.StepLifts | src/logger.rs:542-1026 | the same when the preorder holds of all changes but the filing of a point, and of the one filing this step makes |
| Changes.StepKeeps | src/logger.rs:542-1026 | and a property every such change keeps, the step keeps |
| Changes.StepKeepsWhenFit | src/logger.rs:542-1026 | a property all other changes keep holds throughout a step exactly when the filing fits it |
| Changes.RunKeepsWhenFit | src/logger.rs:542-1026 | and all along a run exactly when every step fits |
| Roads.ClosedDriveHasFacts | src/logger.rs:783-906 | a drive that closes has two points or more, takes its ends, dates and length from the first and last by (date, id), its distance from the odometer, at least 10 m |
| Roads.SameDriveSameFacts | src/logger.rs:783-832 | those facts depend on the drive's own row and points only |
| Integrity.StepSteady | src/logger.rs:542-1026 | each step, with any handed id, keeps: one open session a car; points on drives that exist, ticks and processes on rows that exist; nothing dated after now; sessions that end after they start; charges of a car one after the other |
| Integrity.AlwaysSteady | src/logger.rs:542-1026 | that holds in every state of every run with a clock that does not go back |
| Integrity.ChargesNeverOverlap | src/logger.rs:606-688 | so over every such run the closed charges of a car never overlap; they may touch |
| Integrity.NoPositionIsDeleted | src/logger.rs:782-906 | over every run no position is deleted |
| Integrity.SteadyKeepsWhenFit | src/logger.rs:542-1026 | on steady tables, a property the other changes keep holds throughout a step exactly when the filing fits it |
| Roads.StepDrives | src/logger.rs:566-604 | with any handed id, closed drives and their points stay and what closes says what its points say, at each statement of a step, exactly when the poll takes no point off a drive that is closed by then |
| Roads.ClosedDrivesKeepTheirFacts | src/logger.rs:782-906 | so, between two states of a run without such a poll, every drive that closed says what its points say |
| Roads.StepKeepsClosed | src/logger.rs:566-604 | over one step closed drives and their points stay exactly when it is not a driving poll that files a point of one |
| Roads.ClosedDrivesAreFinal | src/logger.rs:782-906 | and between any two states of any run exactly when no poll does so |
| Roads.PointsLieOnTheirCarsDrives | src/logger.rs:566-604 | over every run, points lie on drives of their own car exactly when each row filed is the car's own |
| Roads.FilingOrdered | src/logger.rs:542-604 | filing a point keeps the sessions of a car one after the other exactly when the point is no earlier than any end of the car |
| Roads.SessionsFollowEachOther | src/logger.rs:542-1026 | over every run the sessions of a car, and the points of its open drive after them, follow each other exactly when each row filed does so |
| Roads.SessionsNeverOverlap | src/logger.rs:542-1026 | so then the closed drives and charges of a car never overlap; they may touch |
| Roads.ExactFits | src/logger.rs:493-540 | the row a poll has just inserted meets all three conditions |
| Integrity.EmptyLedgerIsSteady | src/logger.rs:731-743 | an empty ledger is a start for those runs |
| ChargeFacts.CompleteChargeFollows | src/logger.rs:945-1026 | a charge that closes ends at its last tick, lasts from its first, adds its greatest reading and uses its gain in rated range times the efficiency; the others are left alone |
| ChargeFacts.StepKeepsCharges | src/logger.rs:606-688 | no step, whatever id it is handed, changes a closed charge or one of its ticks, and what it closes has those facts |
| ChargeFacts.ClosedChargesAreFinal | src/logger.rs:931-1026 | the same between any two states of any run |
| ChargeFacts.BlockedForGood | src/logger.rs:981-991 | over every run a blocked car stays blocked, with its charge open, through polls, streams and restarts |
| Gaps.AppendTight | src/logger.rs:690-729 | a later reading keeps a session free of gaps exactly when the last one is not stale by then |
| Gaps.InsertTight | src/logger.rs:586-604 | a reading anywhere does exactly when it is not too long before the first nor after the last |
| Gaps.RemoveTight | src/logger.rs:586-604 | taking a reading away does exactly when its neighbours are close without it |
| Changes.NothingStaleLeft | src/logger.rs:696-729 | the stale check leaves no open session whose last reading is stale |
| Sweep.SweepIsExactForDrives | src/logger.rs:696-713 | the stale check leaves an open drive of the car as it is, points and all, exactly when it has a point at most fifteen minutes old, or none and started so lately; every other drive is left alone |
| Sweep.SweepIsExactForCharges | src/logger.rs:714-728 | the same for charges and their ticks |
| ChargeStretches.TickLands | src/logger.rs:606-688 | a charging poll adds one tick, now, to the open charge of its car that has a recent one; else to one that has no other tick |
| ChargeStretches.NextTickIsTogether | src/logger.rs:606-688 | whatever other cars do in between, the tick of a charging poll goes to the process of the one before exactly when no more than fifteen minutes lie between the two |
| ChargeStretches.OneStretchOneCharge | src/logger.rs:606-688 | a stretch of charging polls puts all its ticks on one process exactly when no two in a row are further apart |
| DriveStretches.PointLands | src/logger.rs:566-604 | a driving poll on its own row puts it on the open drive of its car that has a recent point, which else stays as it is; else on a drive that has no other point |
| DriveStretches.OneStretchOneDrive | src/logger.rs:566-604 | a stretch of such polls has all its points on the one drive open at the end exactly when no two in a row are more than fifteen minutes apart |
| Gaps.NoChargeHasAGap | src/logger.rs:606-688 | over every run with a clock that does not go back, whatever ids are handed, no charge ever holds two consecutive ticks over fifteen minutes apart |
| Gaps.StepGaps | src/logger.rs:566-688 | a step, with any handed id, leaves no gap in a drive exactly when it is not a streamed row that comes too late and the point it files fits the drive it joins and the one it leaves |
| Gaps.NoDriveHasAGap | src/logger.rs:694-766 | over every run no drive has a gap exactly when that holds of every step |
| Gaps.ExactFilingFits | src/logger.rs:694-766 | the row a poll has just inserted always fits: the stale check or the recent point vouches for the drive |
| Gaps.FifteenMinutesAndALittle | src/logger.rs:697 | in milliseconds the bound is 900.999 s |
| SnapshotIds.HandsBackItsRow | src/logger.rs:538-539 | the id handed back is the inserted row's exactly when the refresh inserts nothing or gives its own row the same id |
| SnapshotIds.WrittenPollIsExact | src/logger.rs:493-540 | a poll goes on with its own row exactly when the two ids agree, or the refresh inserts nothing, in the tables before the call |
| SnapshotIds.StepLead | src/logger.rs:493-540 | no step but a restart lets the rollup's rowids gain on the position ids; a poll with an ideal range keeps their distance, a stored streamed row adds one |
| SnapshotIds.PollsAloneAreExact | src/logger.rs:493-540 | while the two ids are in step and only such polls come, every poll goes on with its own row |
| SnapshotIds.FreshPollsAreSound | src/logger.rs:542-688 | so from an empty file, on such polls alone, the code as written keeps in every state: points on their car's drives, sessions one after the other, closed drives that say what their points say, no gap in any session, nothing for compaction to remove |
| SnapshotIds.StaysAhead | src/logger.rs:1233-1294 | once position ids are ahead of rollup rowids, no step but a restart closes the lead |
| SnapshotIds.EveryLaterPollMisses | src/logger.rs:538-539 | from then on every poll with an ideal range goes on with a row it did not insert |
| Witnesses.AClosedDriveLosesAPoint | src/logger.rs:566-604 | from a state in which all of that holds, a poll as the code makes it takes a point off a closed drive |
| Witnesses.TwoDrivesOfOneMinute | src/logger.rs:566-604 | two such polls and the end of the stream leave two closed drives of one car over the same minute |
| Witnesses.ADriveGetsAGap | src/logger.rs:566-604 | from such a state a poll as the code makes it files a point from half an hour before |
| Witnesses.ADriveTakesAnotherCarsPoint | src/logger.rs:566-604 | a first poll after which a drive holds another car's point |
| Witnesses.CompactionRemovesARow | src/logger.rs:1233-1294 | from such a state a poll, a streamed row and the end of the stream leave compaction a row to remove |
| Witnesses.AnAnswerWithoutARangeCrowds | src/logger.rs:493-540 | the snapshot of a parked poll without a range, stored a second after a streamed row, is one compaction removes |
| Witnesses.AStreamedRowComesLate | src/logger.rs:1233-1294 | a streamed row leaves a gap of a thousand seconds |
| Witnesses.AChargingPollBlocks | src/logger.rs:606-688 | a charging poll that runs to its end leaves a car without an efficiency blocked |
| Witnesses.TheFirstChargeBlocks | src/logger.rs:981-991 | so does the first charging poll of such a car on an empty file |
| Witnesses.AFenceAroundTheOrigin | src/locations.rs:228-230 | a fence around (0, 0) labels it at a rematch and not at close |
| Witnesses.TheCatchUpMissesAnOldHour | src/db.rs:244-262 | a rollup with an old bucket missing that the catch-up leaves so |
| Rollup.SamplesKept | src/db.rs:229-242 | a change that keeps the ideal-range rows, but for their drive, leaves every hour alone |
| Rollup.RefreshAgrees | src/db.rs:265-277 | inserting a row and refreshing its hour keeps the rollup equal to the from-scratch grouping |
| Rollup.CutKeepsHoursWhole | src/db.rs:252-260 | the catch-up never rebuilds an hour from part of its rows: its cut stands on an hour |
| Rollup.CatchUpRepairs | src/db.rs:244-262 | the catch-up repairs the rollup exactly when the buckets two hours or more older than the newest, and those without rows, were right already |
| Rollup.CatchUpIsIdempotent | src/db.rs:244-262 | on a rollup that agrees it changes nothing |
| Rollup.AggregateSays | src/db.rs:229-242 | a bucket counts the ranged rows of its car and hour; each average is NULL exactly when no such row has the column, else it lies between two of its values and times their number is their sum |
| Rollup.SumInsert | src/db.rs:229-242 | that sum does not depend on an order: any value can be added last |
| Rollup.InsertMovesColumns | src/db.rs:265-277 | a further row moves count times average of each column by its own value there, and by nothing where it has none |
| Rollup.AgreeingRollupSays | src/db.rs:229-242 | a rollup that agrees has a bucket for exactly the cars and hours with ranged rows, and each says that of them |
| RollupRuns.StepRollup | src/logger.rs:493-540 | each step, with any handed id, keeps the rollup in agreement |
| RollupRuns.RollupAlwaysAgrees | src/db.rs:229-277 | so it agrees, and its buckets say so, in every state of every run, and after a compaction of any of them |
| RollupRuns.EachBucketHasAnId | src/db.rs:229-262 | over every run, restarts included, at least as many rowids are handed out as there are buckets |
| Compaction.BucketSurvives | src/db.rs:182-193 | each streamed row has a row of its drive (or car) and five-second bucket that survives, the least id among them |
| Compaction.CompactIsIdempotent | src/db.rs:154-227 | a second compaction removes nothing |
| Compaction.GroupsStayNonEmpty | src/db.rs:185-213 | no drive, and no car's rows on no drive, loses all its rows |
| Compaction.GuardIsNeverReached | src/db.rs:216-218 | so a table with rows keeps some |
| Compaction.ReferencesSurvive | src/db.rs:163-169 | the points drives and charges refer to survive unchanged |
| Compaction.RemovedWhen | src/db.rs:161-213 | a row goes exactly when it has no ideal range, no drive starts or ends with it, no charge was begun at it, and an earlier such row of its drive (or of its car, on no drive) lies in the same five seconds |
| Compaction.CompactKeepsSteady | src/db.rs:161-170 | compaction keeps what the ledger relies on: one open session, rows that refer to rows that exist, dates in order |
| Compaction.CompactRollup | src/db.rs:229-242 | compaction keeps the rollup in agreement |
| Compaction.ClosedDriveRecomputes | src/logger.rs:783-832 | recomputing a closed drive afterwards gives the same end points, dates and ideal ranges |
| Compaction.OdometerEndsSurvive | src/db.rs:181-213 | the points a distance is taken from are the same after compaction exactly when it keeps them |
| Compaction.DistanceRecomputes | src/db.rs:181-213 | then the distance recomputes to the stored value; it does so whenever the ends of the drive have an odometer reading |
| Sampling.SampledIsCompact | src/db.rs:181-213 | a table the sampling gate has spaced is one compaction leaves as it is |
| Sampling.GateSpacing | src/logger.rs:19-24 | a row the gate lets in is a bucket later than every streamed row it could share a bucket with |
| Sampling.DropApart | src/logger.rs:840-854 | dropping a drive back into the unassigned pool brings no two streamed rows into one bucket |
| Sampling.FilingSpaced | src/logger.rs:566-604 | filing a row keeps the spacing exactly when it is the car's own, has an ideal range or a bucket to itself, and opens no drive behind a later row |
| Sampling.StepSampled | src/logger.rs:1233-1294 | so does a step whose snapshot carries an ideal range, with any handed id |
| Sampling.CompactionRemovesNothing | src/db.rs:181-213 | over every run of such steps rows stay spaced exactly when every row filed fits, and then compaction has nothing to remove in any state |
| Sampling.ExactSampleFits | src/logger.rs:493-540 | the row a poll has just inserted always fits |
| Connections.RefreshPositionHour | src/db.rs:265-277 | the statement rebuilds one bucket, which then says what the rows of its hour say, and is the last insert exactly when it inserted |
| Connections.EnsurePositionHourly | src/db.rs:244-262 | the two branches at start are the one catch-up |
| Connections.DeletionThins | src/db.rs:181-213 | one deletion thins its own group as the filter would and no other, whatever the order of the deletions |
| Connections.CompactStreamPositions | src/db.rs:154-227 | the loop of deletions equals the one filter; before = after + removed; the refusal to vacuum is never reached |
| Connections.RematchTables | src/locations.rs:119-135 | clearing, relabelling row by row and pricing equals one pass over all records |
| Connections.Reassign | src/locations.rs:161-207 | every charge and both ends of every drive get the nearest fence of their point, and none without a point |
| Connections.RecalculateCosts | src/locations.rs:209-225 | a process an invoice owns is left as it is; any other keeps all but its cost, label included, and costs what the first fence with its label's id sets for it, or nothing without such a fence |
| Connections.RecalculatedOnce | src/locations.rs:209-225 | recalculating again changes nothing |
| Connections.PriceChargeGeofence | src/locations.rs:253-281 | labelling and pricing one charge at close |
| Logger.PersistSnapshot | src/logger.rs:493-540 | insert, refresh, then the last rowid: the tables and the id of `Ledger` |
| Logger.CloseOneDrive | src/logger.rs:782-906 | the statements of closing or dropping a drive |
| Logger.CloseEach | src/logger.rs:768-780 | one call for each row of a query's answer |
| Logger.CompleteOneCharge | src/logger.rs:945-1026 | the statements of completing or deleting a charge, and the failing read |
| Logger.CompleteEach | src/logger.rs:931-943 | the loop that stops at the first failure |
| Logger.CloseStaleSessions | src/logger.rs:696-729 | stale drives are closed before stale charges are looked for; what is recent stays as it is, the rest of the car is no longer open |
| Logger.AttachRecentPosition | src/logger.rs:748-766 | a free point joins the latest open drive exactly when some open drive has a recent point |
| Logger.PersistDriveTick | src/logger.rs:566-604 | the order of a driving poll, with the id read back |
| Logger.PersistChargeTick | src/logger.rs:606-688 | the order of a charging poll |
| Logger.PersistIdle | src/logger.rs:542-563 | the order of a parked poll |
| Logger.IngestStreamRow | src/logger.rs:1233-1294 | a streamed row joins the open drive of the greatest id, if due |
| Logger.RepairOpenSessions | src/logger.rs:731-743 | the loop over the cars |
| Logger.Perform | src/logger.rs:295-392 | one call is one step, with the id the code reads back |
| Logger.Run | src/logger.rs:166-249 | the states a program run passes through are a run of steps with the ids the code reads; at most one open session, steady tables, the order of charges and no gap in them, the rollup's agreement, the finality of closed charges, and that of closed drives when no poll took a point off one, follow for its tables |
| Invoices.MatchIsUnique | src/invoices.rs:348-375 | the first lexicographic minimum of (time gap, energy gap) under 25 minutes is one process |
| Invoices.BestMatch | src/invoices.rs:348-375 | the scan that keeps the best so far finds it, the row nearest in time and then in energy, or none exactly when none is under 25 minutes off |
| Invoices.ChooseIsFirstBest | src/invoices.rs:348-375 | the same choice as a function of the rows |
| Invoices.MatchIsNearest | src/invoices.rs:348-375 | that choice, in seconds: it starts under 25 minutes from the invoice, no other row is nearer on either side, none as near is nearer in energy, and no earlier one is as near in both; none exactly when no row is under 25 minutes off |
| Invoices.SyncItemLinks | src/invoices.rs:132-148 | storing an item keeps links one-to-one, costs equal to totals, and links once made |
| Invoices.SyncItemOwnsCost | src/invoices.rs:132-148 | afterwards the linked process costs the item's total; a new link is the free process of that VIN that starts nearest, then with the nearest energy; none exactly when none starts under 25 minutes off |
| Invoices.SyncItemSays | src/invoices.rs:286-314 | a sync writes one invoice, as listed but for the VIN it had, and of the processes at most one cost |
| Invoices.SyncsKeepLinks | src/invoices.rs:109-164 | over any sequence of syncs links stay one-to-one, never change, and own the cost |
| Invoices.LatestTotalWins | src/invoices.rs:286-314 | a linked process costs the last total synced for its invoice |
| InvoiceSync.StoreItem | src/invoices.rs:132-148 | the statements for one item |
| InvoiceSync.KeepUnseen | src/invoices.rs:116-119 | the filter keeps, in order, exactly the listings of the page that are the first of their invoice on all pages so far; counts agree |
| InvoiceSync.TakePage | src/invoices.rs:116-149 | a page stores those listings, as listed, and nothing else |
| InvoiceSync.SyncCar | src/invoices.rs:109-162 | the page loop ends within 80 pages, turns a page exactly while it is asked for more, and stores the first listing of each invoice on the pages it turned, in order |
| InvoiceSync.FirstsAreFirst | src/invoices.rs:116-119 | each of these is a listing no other of its invoice comes before, and they keep their order |
| InvoiceSync.EachFirstIsKept | src/invoices.rs:116-119 | and each such listing is one of them |
| InvoiceSync.StopIsUnique | src/invoices.rs:150-162 | where the walk stops is fixed by what the pages answer |
| InvoiceSync.StopsAtTheFirstEnough | src/invoices.rs:109-162 | it is the first page with nothing new, or the 80th, or one that does not announce more, with all invoices it counts seen, and is not the first of a full sync |
| InvoiceSync.WalkedCosts | src/invoices.rs:109-162 | after the walk every invoice on the pages it turned has the total of its first listing and its process costs that; the other invoices are as they were |
| Jobs.LocationJobs.Start | src/app_state.rs:35-56 | a start under the lock: a new id and a worker, or, with a job under way, another pass when it is running |
| Jobs.LocationJobs.Finish | src/app_state.rs:72-91 | the end of a pass under the lock: again when one was asked for, else completed or failed as the pass went |
| Jobs.ActKeepsProtocol | src/app_state.rs:35-94 | every action keeps: one worker exactly while the job is queued or running, and each called-for write covered or a pass to come |
| Jobs.RunsKeepProtocol | src/app_state.rs:35-94 | so does every interleaving |
| Jobs.TerminalStatusIsTheLastPass | src/app_state.rs:72-91 | in every run a job that has ended is completed exactly when its last pass succeeded, failed exactly when it did not, under the id of the last worker |
| Jobs.NoRequestIsLost | src/app_state.rs:35-94 | when the status is terminal, every write whose start was called came before the last pass; completed means that pass succeeded |
| Jobs.OneActionOfWork | src/app_state.rs:59-92 | each action does its share of the work left, and while a worker exists it can act |
| Jobs.AtMostOneFurtherPass | src/app_state.rs:59-92 | once calls stop, the current pass and at most one more are made |
| Jobs.WorkersEndCompleted | src/app_state.rs:59-92 | once calls stop and every pass still made succeeds, a worker that ends leaves the job completed |
| Jobs.TheWorkerEnds | src/app_state.rs:59-92 | and it can: from every state its remaining actions, at most six, are a run that ends with no worker |
| Jobs.Run | src/app_state.rs:35-94 | any interleaving on the job itself is a run of the protocol: one worker exactly while it is active, no write called for is left unmatched by a terminal status, which is that of the last pass, and completed when the last passes succeed |
| Ownership.StepBooks | src/logger.rs:860-906 | a ledger step, with any handed id, keeps foreign keys, links and costs, and when labels and prices are right keeps them right: what it closes is labelled as a rematch would |
| Ownership.RematchCleans | src/locations.rs:119-135 | a rematch makes labels and prices right from any state of them |
| Ownership.WriteFenceBooks | src/locations.rs:70-117 | a fence write keeps foreign keys, links and costs |
| Ownership.SyncBooks | src/invoices.rs:132-148 | an invoice sync keeps labels and prices right |
| Ownership.HistoryKeepsSystem | src/app_state.rs:35-94 | in every interleaving of ledger steps, syncs, fence writes and job actions the books hold, and are right whenever every write is covered by a pass that succeeded |
| Ownership.ChargesSettleWhenJobCompletes | src/locations.rs:161-281 | job completed and every write called for: each closed charge away from (0, 0) carries the nearest fence of the current table and costs its invoice's total, or else that fence's price, or nothing |
| Ownership.DrivesSettleWhenJobCompletes | src/logger.rs:860-867 | and so for both ends of each closed drive |
| Ownership.CalmHistorySettles | src/app_state.rs:59-92 | once writes and calls stop and every pass succeeds, however all else goes on: when the worker has ended the job is completed and everything is settled |
| Ownership.SettlingIsReachable | src/app_state.rs:35-94 | from every state of every interleaving that can be reached: the calls still owed, one more, and the worker's remaining actions |
| Ownership.TheOriginIsLabelledByRematchOnly | src/locations.rs:228-230 | at (0, 0) closing and rematch agree exactly when no fence contains it |
| Sleep.ConfigFor | src/sleep.rs:52-86 | every interval is at least a second and `fast` makes them all the poll interval; otherwise 3 and 30 minutes with the stream, the settings and at least a minute without, and polls twice as far apart with the stream |
| Sleep.FirstBlockCounts | src/sleep.rs:381-430 | the block reported is the first that holds of the reading, and none exactly when none holds |
| Sleep.SuspendsWhen | src/sleep.rs:308-359 | a reading suspends logging exactly when the car is parked, nothing blocks, and it has been idle for the threshold; a blocked car that idle is reported |
| Sleep.WaitsSay | src/sleep.rs:308-359 | how long a reading waits for the next, by use and by the first block |
| SleepRuns.PollKeepsIdleClock | src/logger.rs:295-376 | one poll keeps the idle clock right, drive-stream backdating included |
| SleepRuns.IdleClockHolds | src/sleep.rs:308-359 | in every run the idle clock is not ahead of now, the last busy reading is at most 90 s after it, and a suspended car was idle for the whole threshold |
| SleepRuns.SuspensionComesAfterQuiet | src/sleep.rs:333-347 | suspension comes only when the last busy reading is the threshold, less 90 s, ago |
| SleepRuns.CallSetsIdleClock | src/logger.rs:340-376 | what a call with an answer leaves of the idle clock: it restarts on use and on any block but standing unlocked, ninety seconds earlier after a drive whose stream went quiet, and else stays |
| SleepRuns.SuspendsAtTheThreshold | src/sleep.rs:308-359 | after a busy reading, while online polls are answered and show no use, logging is suspended by some poll exactly when one of them finds the car at rest with the threshold gone by since; until then the clock stands |
| SleepRuns.FirstProbeFixesDeadline | src/sleep.rs:280-304 | the first quiet or failed probe fixes a deadline no later probe moves |
| SleepRuns.CallsAreFarApart | src/sleep.rs:228-243 | two consecutive calls to a suspended, quiet car are at least `suspend_for` apart |
| SleepRuns.CallsAreNotTooFarApart | src/sleep.rs:228-243 | with poll gaps of at most g no poll comes `suspend_for` + 2g after a call without one before it |
| SleepRuns.QuietCarStaysSuspended | src/sleep.rs:308-359 | a suspended car that stays quiet stays suspended, through its calls, with the same idle clock |
| SleepRuns.QuietCallsAreSpaced | src/sleep.rs:215-359 | over a whole quiet stretch of a run any two consecutive calls are at least `suspend_for` and at most `suspend_for` + 2g apart, with the stream or without |
| SleepRuns.FailedCallIsRetried | src/logger.rs:340-350 | any failed call keeps the phase; one the plan asked for is made again at the next online poll, one a stream sample raised exactly when that poll is past the deadline or sees such a sample too |
| SleepRuns.CallsExactlyWhen | src/sleep.rs:215-304 | a poll calls exactly when the car is online and awake; or suspended, past its deadline or seen in use; or it may be checking itself, and the stream is off, shows anything but nothing, or the grace has passed |
| SleepRuns.PhaseWithoutCall | src/sleep.rs:263-304 | what an online poll without a call leaves: deadline and start of a check are set once |
| SleepRuns.OnlyOnlineCalls | src/sleep.rs:215-226 | an asleep or offline summary never calls and leaves the phase `Asleep` from any phase; any other that is not online never calls and keeps it |
| SleepRuns.CheckKeepsItsStart | src/sleep.rs:263-279 | nil probes do not move the start of a subsystem check |
| SleepRuns.SubsystemCheckIsLeftAlone | src/sleep.rs:228-279 | while probes see nil power a call never comes before the grace has passed since the first of them, and comes at the first online poll after that |
| SleepRuns.SleepingCarIsLeftAlone | src/sleep.rs:215-279 | with the stream on, a car found asleep that then shows only nil power is called by some poll up to the k-th exactly when that poll's probe comes the grace or more after the first of those probes |
| StreamProbe.Listen | src/logger.rs:1106-1163 | the wait ends at the first decisive sample or failure; the answer is the decisive sample, else the last quiet one, else what ended the wait |
| StreamProbe.EndsSay | src/logger.rs:1106-1163 | what ends the wait: for a wake any row that shows anything, for a suspended car any that shows use, and every failure |
| StreamProbe.NilRowBeatsTimeout | src/logger.rs:1106-1113 | a nil row reported as such leaves the car alone; reported as a timeout it would call it |
| StateLog.StateTable.Record | src/logger.rs:1028-1058 | the statements for one summary |
| StateLog.RecordKeepsRunLength | src/logger.rs:1028-1058 | recording keeps one open row for each car, its last; each end the next start; neighbours different |
| StateLog.RecordDecodes | src/logger.rs:1028-1058 | decoding the table gives the new state from its time on and what it gave before until then |
| StateLog.StatesEncodeObservations | src/logger.rs:1028-1058 | for every sequence of summaries in time order the table is a run-length encoding, and decoding it at any time gives the last observation |
| StateLog.RecordEach | src/logger.rs:1028-1058 | the same for the table itself, summaries recorded one after the other |
| SlotQueue.QuerySlots.AcquireQuerySlot | web/app.js:33-51 | rejected, granted at once, or queued last |
| SlotQueue.QuerySlots.RemoveOnAbort | web/app.js:41-47 | an aborted waiter leaves the queue and is rejected, if still in it |
| SlotQueue.QuerySlots.ReleaseQuerySlot | web/app.js:53-65 | the loop passes the slot on or frees it |
| SlotQueue.SlotGoesToFirstLiveWaiter | web/app.js:53-65 | a slot that comes free goes to the first waiter whose signal is not aborted, and to nobody else; those before it leave the queue; with none it is freed |
| SlotQueue.CallSays | web/app.js:33-51 | a call is rejected when its signal is aborted, gets a slot while fewer than three are held, else waits at the end; nobody else is touched |
| SlotQueue.ListenerSays | web/app.js:41-47 | the listener of a waiter takes that one out and rejects it, leaving the others in their order; of one that no longer waits it does nothing |
| SlotQueue.EventKeeps | web/app.js:21-79 | every call, abort, listener and release keeps the slots in order, and settles nothing twice |
| SlotQueue.SlotsAreSafe | web/app.js:21-79 | in every interleaving slots held equal `queryActive`, at most three; waiters queue only when all are held; grants come in the order of the calls; each call settles once, for good |
| SlotQueue.AbortedWaiterGetsNoSlot | web/app.js:53-65 | in every interleaving a waiter whose signal is aborted while it waits gets no slot in any later state, whether or not its listener has run |
| SlotQueue.Run | web/app.js:21-79 | any interleaving on the slots themselves is such a run |
| Scanner.FindMatchingParen | src/sql.rs:1006-1036 | the first place where the depth outside literals is back at zero, or none exactly when there is no such place |
| Scanner.ClosingIsUnique | src/sql.rs:1006-1036 | that place is fixed by the text |
| Scanner.TextEnd | src/sql.rs:917-925 | white space is dropped from the end, all of it and nothing else |
| Scanner.FindExprStart | src/sql.rs:917-970 | back over the balanced parentheses and the whole word before them, or a literal, or a word; or to the start when parentheses never balance |
| Scanner.ScannersAreInverse | src/sql.rs:926-946 | with no parenthesis inside a literal, reading back from a `)` balances at o exactly when reading forward from o stops at that `)` |
| Scanner.QuoteFreeIsPlain | src/sql.rs:926-946 | text without quotes is such a text |
| Scanner.BackwardFindsForward | src/sql.rs:926-946 | where the forward scan closes, the backward scan finds its opening exactly when the quoted parentheses cancel and those closed never outnumber the depth |
| Scanner.ForwardFindsBackward | src/sql.rs:926-946 | where the backward scan balances, the forward scan stops there exactly when the closing one is not quoted, the quoted ones cancel and those opened never make up the balance |
| Scanner.QuotedParenthesisMisleads | src/sql.rs:926-946 | a text on which the first fails |
| Scanner.BackwardStopsInALiteral | src/sql.rs:926-946 | and one on which the second does |
| Scanner.LiteralReadsBack | src/sql.rs:947-960 | whatever a literal holds, quotes included, the backward scan finds its opening quote |
| Scanner.LiteralIsTransparent | src/sql.rs:1022-1030 | and the forward scan passes over it without a change of depth |
| Downsample.Downsample | src/detail.rs:399-418 | exactly `max` points, at the indices of the formula; the duplicate and empty-slot branches never run |
| Downsample.PicksIncrease | src/detail.rs:408 | the indices increase strictly |
| Downsample.ThinningIsEven | src/detail.rs:399-418 | the picks are in order, the first and last points are kept, and gaps differ by at most one |

## Left out

- HTTP, OAuth, WebSocket transport, parsing of JSON and CSV, the handlers and the panels: inputs here.
- The loop over tracked cars (`poll_due`), its delays and back-off: a run is any sequence of polls.
- Columns that are copied and not reasoned about: speed, power, temperatures, elevation, tyre pressures, rated range of drives, battery levels of charges, addresses, and the other averages of an hour.
- The update history, query caches and limits, passwords and keys: they touch none of the tables modelled here.
- Failures of the database in the middle of a tick, other than the unreadable efficiency and a broken foreign key: a tick runs whole. A failed rematch is a rollback; a panic inside it is not modelled.
- Readings of the clock: one tick has one clock value, although the code reads the clock again after the snapshot.
- The order in which stale sessions are closed: by start date, where the query has no `ORDER BY`.
- SQLite's text dates: imported rows without a fraction, or with an unreadable date, are not modelled; an invoice candidate always has a readable start.
- Floating point: amounts, ranges and distances are reals, `ROUND` on a duration is half-up on milliseconds, and an average is exact. A place is never infinite or NaN.
- Roads.SessionsFollowEachOther: the exact condition is for the sessions together with the points of the open drive; that two closed sessions overlap follows only once a misplaced point's drive has closed. Gaps.NoDriveHasAGap, Roads.PointsLieOnTheirCarsDrives and Sampling.CompactionRemovesNothing likewise look at the tables after each step and at the moment a point is filed.
- Sampling.StepSampled: takes the ideal range of snapshots as given; an answer without one is stored without the gate and can crowd a bucket by itself (Witnesses.AnAnswerWithoutARangeCrowds).
- Compaction.DistanceRecomputes: where compaction removes the first or last point with an odometer the distance recomputes from others; by how much is not stated.
- Logger.Run: leaves the conditions on filed rows to the theorems about runs, which apply to its states.
- InvoiceSync.SyncCar: takes the page loop of one car without interleaving; Ownership.HistoryKeepsSystem has the interleaving, item by item.
- Deleting a car with all its rows, and restoring a database from a dump.
- Scanner.FindMatchingParen: `depth` is a 32-bit integer in the code and unbounded here.
- Sleep.ConfigFor: products of minutes and sixty do not overflow here.
- SlotQueue.QuerySlots.AcquireQuerySlot: promises are settled at once here; the microtask that resumes a caller is not modelled.
- The regular-expression rewrites of src/sql.rs: they are heuristics and claim no equivalence.
