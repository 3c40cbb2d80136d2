/** The events page (src/app/admin/eventos/page.tsx): a form that adds an
    event once its title, date and time are filled in. */
module Events {
  import opened JsRecord
  import opened Outcomes

  const EventAlert: string := "Por favor, preencha Título, Data e Horário."
  const EventErrorAlert: string := "Ocorreu um erro ao salvar o evento."

  /** The fields a save requires. */
  const RequiredEventFields: seq<string> := ["titulo", "data", "horario"]

  /** `estadoInicialEvento`: empty except the date, which is the day the
      page module was loaded. */
  function InitialEvent(today: string): (r: Record)
    ensures r.Keys == {"titulo", "data", "horario", "local", "descricao"}
    ensures Get(r, "data") == Str(today)
    ensures Get(r, "titulo") == Str("") && Get(r, "horario") == Str("")
    ensures Get(r, "local") == Str("") && Get(r, "descricao") == Str("")
  {
    map["titulo" := Str(""), "data" := Str(today), "horario" := Str(""), "local" := Str(""), "descricao" := Str("")]
  }

  /** `handleSalvar`: rejected unless title, date and time are all filled;
      otherwise the form is written exactly as it is. */
  function SaveEvent(form: Record): (o: SaveOutcome)
    ensures o.Added? <==> Filled(form, RequiredEventFields)
    ensures o.Added? ==> o.payload == form
    ensures !o.Added? ==> o == Rejected(EventAlert)
  {
    assert "titulo" in RequiredEventFields && "data" in RequiredEventFields && "horario" in RequiredEventFields;
    if !Truthy(Get(form, "titulo")) || !Truthy(Get(form, "data")) || !Truthy(Get(form, "horario")) then
      Rejected(EventAlert)
    else Added(form)
  }

  /** A fresh form is refused until a title and a time are typed in, and
      accepted once they are (with a non-empty date). */
  lemma FreshEventNeedsTitleAndTime(today: string, title: string, time: string)
    requires title != "" && time != "" && today != ""
    ensures SaveEvent(InitialEvent(today)) == Rejected(EventAlert)
    ensures SaveEvent(Put(Put(InitialEvent(today), "titulo", Str(title)), "horario", Str(time))).Added?
  {
    var f := Put(Put(InitialEvent(today), "titulo", Str(title)), "horario", Str(time));
    assert Get(f, "titulo") == Str(title) && Get(f, "data") == Str(today) && Get(f, "horario") == Str(time);
  }

  class EventsPage {
    var events: seq<Record>
    var modalOpen: bool
    var newEvent: Record
    const today: string

    constructor (today: string)
      ensures this.today == today && events == [] && !modalOpen && newEvent == InitialEvent(today)
    {
      this.today := today;
      events := [];
      modalOpen := false;
      newEvent := InitialEvent(today);
    }

    /** The event list as fetched from the database. */
    method Loaded(fetched: seq<Record>)
      modifies this`events
      ensures events == fetched
    {
      events := fetched;
    }

    /** `handleOpenModal`: a blank form in an open dialog. */
    method OpenModal()
      modifies this`newEvent, this`modalOpen
      ensures newEvent == InitialEvent(today) && modalOpen
    {
      newEvent := InitialEvent(today);
      modalOpen := true;
    }

    /** `handleCloseModal` */
    method CloseModal()
      modifies this`modalOpen
      ensures !modalOpen
    {
      modalOpen := false;
    }

    /** `handleChange`: the named field takes the input's text and every
        other field keeps its value. */
    method Change(name: string, value: string)
      modifies this`newEvent
      ensures newEvent == Put(old(newEvent), name, Str(value))
      ensures Get(newEvent, name) == Str(value)
      ensures forall k :: k != name ==> Get(newEvent, k) == Get(old(newEvent), k)
    {
      newEvent := Put(newEvent, name, Str(value));
    }

    /** `handleSalvar`; `writeOk` is whether the database accepted the new
        document. A successful write closes the dialog. */
    method Save(writeOk: bool) returns (o: SaveOutcome, alert: string)
      modifies this`modalOpen
      ensures o == SaveEvent(newEvent)
      ensures o.Rejected? ==> alert == EventAlert && modalOpen == old(modalOpen)
      ensures o.Added? && writeOk ==>
        alert == "Evento \"" + OrEmpty(Get(newEvent, "titulo")) + "\" salvo com sucesso!" && !modalOpen
      ensures o.Added? && !writeOk ==> alert == EventErrorAlert && modalOpen == old(modalOpen)
    {
      o := SaveEvent(newEvent);
      if o.Added? && writeOk {
        alert := "Evento \"" + OrEmpty(Get(newEvent, "titulo")) + "\" salvo com sucesso!";
        CloseModal();
      } else if o.Added? {
        alert := EventErrorAlert;
      } else {
        alert := EventAlert;
      }
    }
  }
}
