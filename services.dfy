/** The services page (src/pages/Services.tsx): the form's ordered checks and
    the save they guard, the name filter, the duration label and the price
    field's input sanitiser. */
module Services {
  import opened Common
  import opened Schema
  import opened Decimal
  import opened RemoteStore

  const NameRequired := "Nome é obrigatório"
  const InvalidPrice := "Preço inválido"
  const InvalidDuration := "Duração inválida"
  const SaveFailed := "Erro ao salvar serviço"
  const Updated := "Serviço atualizado com sucesso"
  const Created := "Serviço criado com sucesso"

  /** The duration field of a new service's form. */
  const DefaultDuration := "60"

  // ---------------------------------------------------------------------------
  // The form and its checks
  // ---------------------------------------------------------------------------

  /** The dialog's state: the service being edited (if any) and the three text fields. */
  datatype ServiceForm = ServiceForm(editing: Option<Service>, name: string, price: string, duration: string)

  /** `handleOpenDialog`. `showPrice` stands for `Number.prototype.toString`
      on the stored price; an integral duration is written as its decimal text. */
  function OpenServiceForm(service: Option<Service>, showPrice: real -> string): (form: ServiceForm)
    ensures form.editing == service
    ensures service.None? ==> form.name == "" && form.price == "" && form.duration == DefaultDuration
    ensures service.Some? ==> form.name == service.value.name && form.price == showPrice(service.value.price)
    ensures service.Some? ==> ParseInt(form.duration) == Some(service.value.duration)
  {
    match service
    case Some(s) =>
      IntRoundTrip(s.duration);
      ServiceForm(service, s.name, showPrice(s.price), IntToString(s.duration))
    case None => ServiceForm(None, "", "", DefaultDuration)
  }

  predicate PriceRejected(priceText: string, priceValue: Option<real>)
  {
    priceText == "" || priceValue.None? || priceValue.value < 0.0
  }

  predicate DurationRejected(durationText: string, durationValue: Option<int>)
  {
    durationText == "" || durationValue.None? || durationValue.value <= 0
  }

  /** `handleSaveService`'s checks, in order, stopping at the first failure.
      `priceValue`/`durationValue` are what `Number(...)` gives for the text
      (None for NaN). A passing form satisfies the service invariant
      price >= 0 and duration > 0. */
  function ValidateService(name: string, priceText: string, priceValue: Option<real>,
                           durationText: string, durationValue: Option<int>): (r: Result<ServiceInput>)
    ensures r == Err(NameRequired) <==> name == ""
    ensures r == Err(InvalidPrice) <==> name != "" && PriceRejected(priceText, priceValue)
    ensures r == Err(InvalidDuration) <==>
      name != "" && !PriceRejected(priceText, priceValue) && DurationRejected(durationText, durationValue)
    ensures r.Ok? <==>
      name != "" && !PriceRejected(priceText, priceValue) && !DurationRejected(durationText, durationValue)
    ensures r.Ok? ==> r.value.name == name && r.value.price >= 0.0 && r.value.duration > 0
    ensures r.Ok? ==> Some(r.value.price) == priceValue && Some(r.value.duration) == durationValue
  {
    if name == "" then Err(NameRequired)
    else if PriceRejected(priceText, priceValue) then Err(InvalidPrice)
    else if DurationRejected(durationText, durationValue) then Err(InvalidDuration)
    else Ok(ServiceInput(name, priceValue.value, durationValue.value))
  }

  /** A free service passes; a zero-minute one does not. */
  lemma ZeroPriceButNotZeroDuration(name: string)
    requires name != ""
    ensures ValidateService(name, "0", Some(0.0), "60", Some(60)).Ok?
    ensures ValidateService(name, "10", Some(10.0), "0", Some(0)) == Err(InvalidDuration)
    ensures ValidateService(name, "-5", Some(-5.0), "60", Some(60)) == Err(InvalidPrice)
  {
  }

  /** Opening a stored service and saving it untouched passes the duration
      check exactly when the stored duration is positive. */
  lemma ReopenedDurationCheck(s: Service, showPrice: real -> string)
    ensures var form := OpenServiceForm(Some(s), showPrice);
            DurationRejected(form.duration, ParseInt(form.duration)) <==> s.duration <= 0
  {
    IntRoundTrip(s.duration);
  }

  /** `handleSaveService`: the checks, then an update of the edited service
      or an insert of a new one. The result carries the snackbar message. */
  method SaveService(store: Store, form: ServiceForm, priceValue: Option<real>, durationValue: Option<int>,
                     userId: Option<Id>, assignedId: Id, accepted: bool)
    returns (r: Result<string>)
    modifies store`services
    ensures var checked := ValidateService(form.name, form.price, priceValue, form.duration, durationValue);
            && (checked.Err? ==> r == Err(checked.message) && store.services == old(store.services))
            && (checked.Ok? && !accepted ==> r == Err(SaveFailed) && store.services == old(store.services))
            && (checked.Ok? && accepted && form.editing.Some? ==>
                  r == Ok(Updated)
                  && store.services == UpdateServiceRows(old(store.services), form.editing.value.id,
                                                         form.name, checked.value.price, checked.value.duration))
            && (checked.Ok? && accepted && form.editing.None? ==>
                  r == Ok(Created)
                  && store.services == old(store.services)
                       + [Service(assignedId, form.name, checked.value.price, checked.value.duration, userId)])
  {
    var checked := ValidateService(form.name, form.price, priceValue, form.duration, durationValue);
    if checked.Err? {
      return Err(checked.message);
    }
    var ok: bool;
    if form.editing.Some? {
      ok := store.UpdateService(form.editing.value.id, form.name, checked.value.price, checked.value.duration, accepted);
      r := if ok then Ok(Updated) else Err(SaveFailed);
    } else {
      ok := store.InsertService(Service(assignedId, form.name, checked.value.price, checked.value.duration, userId), accepted);
      r := if ok then Ok(Created) else Err(SaveFailed);
    }
  }

  // ---------------------------------------------------------------------------
  // Name filter
  // ---------------------------------------------------------------------------

  function NameIncludes(needle: string): Service -> bool
  {
    (s: Service) => Includes(Lower(s.name), needle)
  }

  /** `filteredServices`: in order, the services whose lowercased name contains
      the lowercased term; every service for an empty term. */
  function FilterServices(services: seq<Service>, term: string): (r: seq<Service>)
    ensures IsSubsequence(r, services)
    ensures forall s :: s in r <==> s in services && Includes(Lower(s.name), Lower(term))
    ensures term == "" ==> r == services
  {
    if term == "" then
      assert forall i :: 0 <= i < |services| ==> NameIncludes(Lower(term))(services[i]) by {
        forall i | 0 <= i < |services| ensures Includes(Lower(services[i].name), "") {
          IncludesEmpty(Lower(services[i].name));
        }
      }
      Filter(services, NameIncludes(Lower(term)))
    else
      Filter(services, NameIncludes(Lower(term)))
  }

  /** The filter ignores the case of the term. */
  lemma FilterServicesIgnoresCase(services: seq<Service>, term: string)
    ensures FilterServices(services, Lower(term)) == FilterServices(services, term)
  {
    LowerIdempotent(term);
  }

  // ---------------------------------------------------------------------------
  // Duration label
  // ---------------------------------------------------------------------------

  /** `formatDuration`: minutes as Portuguese text. Its shapes are stated by
      `FormatDurationShape`, its inverse by `FormatDurationRoundTrip`. */
  function FormatDuration(minutes: int): string
  {
    if minutes < 60 then IntToString(minutes) + " min"
    else HoursLabel(minutes / 60, minutes % 60)
  }

  /** The label of a duration of at least an hour, from its whole hours and
      remaining minutes. */
  function HoursLabel(hours: int, rest: int): string
  {
    if rest == 0 then
      if hours == 1 then "1 hora" else IntToString(hours) + " horas"
    else if hours == 1 then "1 hora e " + IntToString(rest) + " min"
    else IntToString(hours) + " horas e " + IntToString(rest) + " min"
  }

  /** The five shapes of the label, with hours and remaining minutes splitting `minutes`. */
  lemma FormatDurationShape(minutes: int)
    ensures minutes < 60 ==> FormatDuration(minutes) == IntToString(minutes) + " min"
    ensures minutes >= 60 ==>
      var hours, rest := minutes / 60, minutes % 60;
      && hours >= 1 && 0 <= rest < 60 && hours * 60 + rest == minutes
      && (rest == 0 && hours == 1 ==> FormatDuration(minutes) == "1 hora")
      && (rest == 0 && hours > 1 ==> FormatDuration(minutes) == IntToString(hours) + " horas")
      && (rest > 0 && hours == 1 ==> FormatDuration(minutes) == "1 hora e " + IntToString(rest) + " min")
      && (rest > 0 && hours > 1 ==> FormatDuration(minutes) == IntToString(hours) + " horas e " + IntToString(rest) + " min")
  {
  }

  lemma FormatDurationExamples()
    ensures FormatDuration(45) == "45 min"
    ensures FormatDuration(60) == "1 hora"
    ensures FormatDuration(120) == "2 horas"
  {
    DecimalLiterals();
    assert FormatDuration(60) == HoursLabel(1, 0);
    assert FormatDuration(120) == HoursLabel(2, 0);
  }

  lemma FormatDurationMixedExamples()
    ensures FormatDuration(90) == "1 hora e 30 min"
    ensures FormatDuration(150) == "2 horas e 30 min"
  {
    DecimalLiterals();
    assert FormatDuration(90) == HoursLabel(1, 30) == "1 hora e " + "30" + " min";
    assert FormatDuration(150) == HoursLabel(2, 30) == "2" + " horas e " + "30" + " min";
  }

  lemma DecimalLiterals()
    ensures IntToString(45) == "45" && IntToString(30) == "30" && IntToString(2) == "2"
  {
    assert NatToString(45) == NatToString(4) + [DigitChar(5)];
    assert NatToString(30) == NatToString(3) + [DigitChar(0)];
  }

  /** Index of the first space, or the length when there is none. */
  function SpaceIndex(s: string): (k: nat)
    ensures k <= |s|
    ensures forall i :: 0 <= i < k ==> s[i] != ' '
    ensures k < |s| ==> s[k] == ' '
  {
    if s == [] || s[0] == ' ' then 0 else 1 + SpaceIndex(s[1..])
  }

  lemma SpaceIndexConcat(a: string, b: string)
    requires ' ' !in a && b != [] && b[0] == ' '
    ensures SpaceIndex(a + b) == |a|
  {
    var k := SpaceIndex(a + b);
    assert (a + b)[|a|] == ' ';
    assert forall i :: 0 <= i < |a| ==> (a + b)[i] == a[i];
  }

  predicate EndsWith(s: string, suffix: string)
  {
    |suffix| <= |s| && s[|s| - |suffix|..] == suffix
  }

  /** Reads a duration label back into minutes: the inverse of `FormatDuration`. */
  function ReadDuration(text: string): Option<int>
  {
    var k := SpaceIndex(text);
    match ParseInt(text[..k])
    case None => None
    case Some(n) => ReadUnit(n, text[k..])
  }

  /** Reads what follows the leading number `n` of a label. */
  function ReadUnit(n: int, rest: string): Option<int>
  {
    if rest == " min" then Some(n)
    else if rest == " hora" || rest == " horas" then Some(n * 60)
    else if StartsWith(rest, " hora e ") && EndsWith(rest, " min") && |rest| >= 12 then
      match ParseInt(rest[8..|rest| - 4])
      case Some(m) => Some(n * 60 + m)
      case None => None
    else if StartsWith(rest, " horas e ") && EndsWith(rest, " min") && |rest| >= 13 then
      match ParseInt(rest[9..|rest| - 4])
      case Some(m) => Some(n * 60 + m)
      case None => None
    else None
  }

  lemma ReadOneHourAnd(n: int, r: string, m: int)
    requires ParseInt(r) == Some(m)
    ensures ReadUnit(n, " hora e " + r + " min") == Some(n * 60 + m)
  {
    var tail := " hora e " + r + " min";
    assert r != [];
    assert |tail| >= 13;
    assert tail[..8] == " hora e ";
    assert tail[|tail| - 4..] == " min";
    assert tail[8..|tail| - 4] == r;
  }

  lemma ReadHoursAnd(n: int, r: string, m: int)
    requires ParseInt(r) == Some(m)
    ensures ReadUnit(n, " horas e " + r + " min") == Some(n * 60 + m)
  {
    var tail := " horas e " + r + " min";
    assert r != [];
    assert |tail| >= 14;
    assert tail[5] == 's';
    assert !StartsWith(tail, " hora e ") by {
      assert " hora e "[5] == ' ';
    }
    assert tail[..9] == " horas e ";
    assert tail[|tail| - 4..] == " min";
    assert tail[9..|tail| - 4] == r;
  }

  lemma NoSpaceInNumber(i: int)
    ensures ' ' !in IntToString(i)
  {
    var s := IntToString(i);
    if i < 0 {
      assert s == "-" + NatToString(-i);
    }
    assert forall j :: 0 <= j < |s| ==> s[j] != ' ';
  }

  /** Reading `number + rest` splits at the number's end. */
  lemma ReadSplit(i: int, rest: string)
    requires rest != [] && rest[0] == ' '
    ensures var text := IntToString(i) + rest;
            SpaceIndex(text) == |IntToString(i)| && text[..SpaceIndex(text)] == IntToString(i)
            && text[SpaceIndex(text)..] == rest && ParseInt(text[..SpaceIndex(text)]) == Some(i)
  {
    NoSpaceInNumber(i);
    SpaceIndexConcat(IntToString(i), rest);
    IntRoundTrip(i);
    var text := IntToString(i) + rest;
    assert text[..|IntToString(i)|] == IntToString(i);
    assert text[|IntToString(i)|..] == rest;
  }

  lemma ReadMinutesLabel(minutes: int)
    ensures ReadDuration(IntToString(minutes) + " min") == Some(minutes)
  {
    ReadSplit(minutes, " min");
  }

  lemma ReadOneHourLabel()
    ensures ReadDuration("1 hora") == Some(60)
  {
    assert IntToString(1) + " hora" == "1 hora";
    ReadSplit(1, " hora");
  }

  lemma ReadHoursLabel(hours: int)
    ensures ReadDuration(IntToString(hours) + " horas") == Some(hours * 60)
  {
    ReadSplit(hours, " horas");
  }

  lemma ReadOneHourAndMinutesLabel(rest: int)
    ensures ReadDuration("1 hora e " + IntToString(rest) + " min") == Some(60 + rest)
  {
    var r := IntToString(rest);
    IntRoundTrip(rest);
    var tail := " hora e " + r + " min";
    assert IntToString(1) + tail == "1 hora e " + r + " min";
    ReadSplit(1, tail);
    ReadOneHourAnd(1, r, rest);
  }

  lemma ReadHoursAndMinutesLabel(hours: int, rest: int)
    ensures ReadDuration(IntToString(hours) + " horas e " + IntToString(rest) + " min") == Some(hours * 60 + rest)
  {
    var r := IntToString(rest);
    IntRoundTrip(rest);
    var tail := " horas e " + r + " min";
    assert IntToString(hours) + tail == IntToString(hours) + " horas e " + r + " min";
    ReadSplit(hours, tail);
    ReadHoursAnd(hours, r, rest);
  }

  lemma ReadHoursLabelOf(hours: int, rest: int)
    ensures ReadDuration(HoursLabel(hours, rest)) == Some(hours * 60 + rest)
  {
    if rest == 0 && hours == 1 {
      ReadOneHourLabel();
    } else if rest == 0 {
      ReadHoursLabel(hours);
    } else if hours == 1 {
      ReadOneHourAndMinutesLabel(rest);
    } else {
      ReadHoursAndMinutesLabel(hours, rest);
    }
  }

  /** Every label reads back as the minutes it was made from. */
  lemma FormatDurationRoundTrip(minutes: int)
    ensures ReadDuration(FormatDuration(minutes)) == Some(minutes)
  {
    if minutes < 60 {
      ReadMinutesLabel(minutes);
    } else {
      var hours, rest := minutes / 60, minutes % 60;
      assert hours * 60 + rest == minutes;
      assert FormatDuration(minutes) == HoursLabel(hours, rest);
      ReadHoursLabelOf(hours, rest);
    }
  }

  /** No two durations get the same label. */
  lemma FormatDurationInjective(a: int, b: int)
    requires FormatDuration(a) == FormatDuration(b)
    ensures a == b
  {
    FormatDurationRoundTrip(a);
    FormatDurationRoundTrip(b);
  }

  // ---------------------------------------------------------------------------
  // Price field sanitiser
  // ---------------------------------------------------------------------------

  predicate IsPriceChar(c: char)
  {
    IsDigit(c) || c == '.' || c == ','
  }

  /** Index of the first `c` in `s`, or -1. */
  function IndexOf(s: string, c: char): (k: int)
    ensures -1 <= k < |s|
    ensures k >= 0 ==> s[k] == c && forall j :: 0 <= j < k ==> s[j] != c
    ensures k == -1 <==> c !in s
  {
    if s == [] then -1
    else if s[0] == c then 0
    else var k := IndexOf(s[1..], c); if k == -1 then -1 else k + 1
  }

  /** The string `replace` with a one-character pattern: only the first occurrence changes. */
  function ReplaceFirst(s: string, from: char, to: char): (r: string)
    ensures |r| == |s|
    ensures forall i :: 0 <= i < |s| ==> r[i] == if i == IndexOf(s, from) then to else s[i]
  {
    if s == [] then []
    else if s[0] == from then [to] + s[1..]
    else [s[0]] + ReplaceFirst(s[1..], from, to)
  }

  /** The price `onChange`: drop everything but digits, '.' and ',', then
      turn the first ',' into '.'. */
  function SanitisePrice(input: string): (r: string)
    ensures forall i :: 0 <= i < |r| ==> IsPriceChar(r[i])
    ensures IsSubsequence(Filter(input, IsPriceChar), input)
    ensures |r| == |Filter(input, IsPriceChar)|
    ensures var kept := Filter(input, IsPriceChar);
            forall i :: 0 <= i < |r| ==> r[i] == if i == IndexOf(kept, ',') then '.' else kept[i]
  {
    ReplaceFirst(Filter(input, IsPriceChar), ',', '.')
  }

  /** Text made of digits and dots passes through unchanged. */
  lemma DigitsAndDotsUnchanged(input: string)
    requires forall i :: 0 <= i < |input| ==> IsDigit(input[i]) || input[i] == '.'
    ensures SanitisePrice(input) == input
  {
    assert Filter(input, IsPriceChar) == input;
    assert ',' !in input;
  }

  /** Only the first comma becomes a dot: every later comma survives. */
  lemma LaterCommasSurvive(input: string, j: int)
    requires var kept := Filter(input, IsPriceChar);
             0 <= j < |kept| && kept[j] == ',' && j != IndexOf(kept, ',')
    ensures j < |SanitisePrice(input)| && SanitisePrice(input)[j] == ','
  {
  }
}
