/** The administrator's tournament-creation form: the field checks of its schema and
    the mapping of an accepted form onto the data `addTournament` receives. */
module Admin {
  import opened Common
  import opened Tournaments

  /** The form as submitted; numbers are already coerced, and are whole numbers here. */
  datatype FormValues = FormValues(
    name: string, gameType: string, prizePool: int, entryFee: int,
    totalSlots: int, date: string, time: string)

  /** The schema's fields, in declaration order, each naming the check it failed. */
  datatype Field = NameField | GameTypeField | PrizePoolField | EntryFeeField | TotalSlotsField | DateField | TimeField

  /** `z.enum(["freefire", "bgmi"])`. */
  function ParseGameType(s: string): (r: Option<GameType>)
    ensures r == Some(FreeFire) <==> s == "freefire"
    ensures r == Some(Bgmi) <==> s == "bgmi"
    ensures r.None? <==> s != "freefire" && s != "bgmi"
  {
    if s == "freefire" then Some(FreeFire)
    else if s == "bgmi" then Some(Bgmi)
    else None
  }

  /** Whether the form fails the check of field `f`. */
  predicate Fails(v: FormValues, f: Field)
  {
    match f
    case NameField => |v.name| < 3
    case GameTypeField => ParseGameType(v.gameType).None?
    case PrizePoolField => v.prizePool <= 0
    case EntryFeeField => v.entryFee < 0
    case TotalSlotsField => v.totalSlots < 2 || v.totalSlots > 100
    case DateField => v.date == []
    case TimeField => v.time == []
  }

  const ALL_FIELDS: seq<Field> :=
    [NameField, GameTypeField, PrizePoolField, EntryFeeField, TotalSlotsField, DateField, TimeField]

  /** Every field check of the schema that the form fails, in field order. */
  function SchemaIssues(v: FormValues): (r: seq<Field>)
    ensures forall f: Field :: f in r <==> Fails(v, f)
    ensures |r| <= 7
  {
    AllFieldsListed();
    IssuesAmong(v, ALL_FIELDS)
  }

  /** The fields of `fields` whose check the form fails, in order. */
  function IssuesAmong(v: FormValues, fields: seq<Field>): (r: seq<Field>)
    ensures forall f: Field :: f in r <==> f in fields && Fails(v, f)
    ensures |r| <= |fields|
  {
    if fields == [] then []
    else (if Fails(v, fields[0]) then [fields[0]] else []) + IssuesAmong(v, fields[1..])
  }

  /** The schema checks every field. */
  lemma AllFieldsListed()
    ensures forall f: Field :: f in ALL_FIELDS
  {
    forall f: Field
      ensures f in ALL_FIELDS
    {
      match f
      case NameField => assert ALL_FIELDS[0] == f;
      case GameTypeField => assert ALL_FIELDS[1] == f;
      case PrizePoolField => assert ALL_FIELDS[2] == f;
      case EntryFeeField => assert ALL_FIELDS[3] == f;
      case TotalSlotsField => assert ALL_FIELDS[4] == f;
      case DateField => assert ALL_FIELDS[5] == f;
      case TimeField => assert ALL_FIELDS[6] == f;
    }
  }

  /** The schema followed by `onSubmit`: an accepted form becomes the data handed to
      `addTournament`, with every field passed through and the status set to upcoming. */
  function Submit(v: FormValues): (r: Result<TournamentData, seq<Field>>)
    ensures r.Ok? <==>
      && |v.name| >= 3
      && (v.gameType == "freefire" || v.gameType == "bgmi")
      && v.prizePool > 0
      && v.entryFee >= 0
      && 2 <= v.totalSlots <= 100
      && v.date != [] && v.time != []
    ensures r.Ok? ==>
      && r.value.name == v.name && r.value.prizePool == v.prizePool
      && r.value.entryFee == v.entryFee && r.value.totalSlots == v.totalSlots
      && r.value.date == v.date && r.value.time == v.time
      && (r.value.gameType == FreeFire <==> v.gameType == "freefire")
      && r.value.status == Upcoming
    ensures r.Err? ==> r.error != [] && r.error == SchemaIssues(v)
  {
    var issues := SchemaIssues(v);
    if issues != [] then
      assert issues[0] in issues;
      Err(issues)
    else
      assert !Fails(v, NameField) && !Fails(v, GameTypeField) && !Fails(v, PrizePoolField);
      assert !Fails(v, EntryFeeField) && !Fails(v, TotalSlotsField);
      assert !Fails(v, DateField) && !Fails(v, TimeField);
      Ok(TournamentData(v.name, ParseGameType(v.gameType).value, v.prizePool, v.entryFee,
                        v.totalSlots, v.date, v.time, Upcoming))
  }

  /** A tournament created from an accepted form gets between 2 and 100 slots, numbered
      from 1, all free, so its displayed filled count starts at zero; a free tournament
      (entry fee 0) is accepted. */
  lemma AcceptedFormMakesOpenTournament(v: FormValues)
    requires Submit(v).Ok?
    ensures var d := Submit(v).value;
      && 2 <= |FreshSlots(d.totalSlots)| <= 100
      && Numbered(FreshSlots(d.totalSlots))
      && |Filter(FreshSlots(d.totalSlots), IsFree)| == d.totalSlots
      && FilledCount(FreshSlots(d.totalSlots)) == 0
      && WellFormed(Snapshot("", d, FreshSlots(d.totalSlots)))
  {
    FreshSlotsAllFree(Submit(v).value.totalSlots);
  }

  /** Zero is an acceptable entry fee. */
  lemma FreeTournamentAccepted(v: FormValues)
    requires |v.name| >= 3 && v.gameType == "bgmi" && v.prizePool > 0
    requires 2 <= v.totalSlots <= 100 && v.date != [] && v.time != []
    requires v.entryFee == 0
    ensures Submit(v).Ok? && Submit(v).value.entryFee == 0
  {
  }
}
