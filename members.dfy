/** The member registry page (src/app/admin/page.tsx): the add and edit
    forms of a church member, their validation and the payloads they write,
    and the detail view's field display. */
module Members {
  import opened Wrappers
  import opened JsText
  import opened JsRecord
  import opened Outcomes

  const NameAlert: string := "O nome do membro é obrigatório!"
  const UpdateErrorAlert: string := "Ocorreu um erro ao atualizar os dados do membro."
  const NotInformed: string := "Não informado"

  /** The fields of the member form, in declaration order. */
  const MemberFields: seq<string> := [
    "nome", "foto", "endereco", "numero", "complemento", "bairro",
    "cidade", "estado", "cep", "rg", "cpf", "dataNascimento",
    "estadoCivil", "tel", "celular", "filiacaoMae", "filiacaoPai",
    "batizadoEspiritoSanto", "batismoAguasData", "cargo", "recebidoMinisterioData",
    "status"]

  /** `estadoInicialFormulario`: every field empty except the Holy Spirit
      baptism answer ("Nao") and the status ("Ativo"). */
  function InitialMember(): (r: Record)
    ensures r.Keys == set k | k in MemberFields
    ensures Get(r, "batizadoEspiritoSanto") == Str("Nao") && Get(r, "status") == Str("Ativo")
    ensures forall k :: k in MemberFields && k != "batizadoEspiritoSanto" && k != "status" ==> Get(r, k) == Str("")
  {
    map k | k in MemberFields :: if k == "batizadoEspiritoSanto" then Str("Nao") else if k == "status" then Str("Ativo") else Str("")
  }

  /** `nome.trim()` is empty: Some(true) or Some(false), or None when `nome`
      is not text and calling `trim` on it throws. */
  function NameBlank(r: Record): (blank: Option<bool>)
    ensures blank.None? <==> !Get(r, "nome").Str?
    ensures blank == Some(true) <==> Get(r, "nome").Str? && AllSpaces(Get(r, "nome").s)
  {
    match Get(r, "nome")
    case Str(s) =>
      TrimEmptyIff(s);
      Some(Trim(s) == "")
    case _ => None
  }

  /** `handleSalvarMembro`: a member with a name is added without the photo
      field. */
  function AddMember(form: Record): (o: SaveOutcome)
    ensures o == Crashed <==> !Get(form, "nome").Str?
    ensures o == Rejected(NameAlert) <==> Get(form, "nome").Str? && AllSpaces(Get(form, "nome").s)
    ensures o.Added? <==> Get(form, "nome").Str? && !AllSpaces(Get(form, "nome").s)
    ensures o.Added? ==> o.payload == Omit(form, "foto")
    ensures !o.Updated?
  {
    match NameBlank(form)
    case None => Crashed
    case Some(blank) => if blank then Rejected(NameAlert) else Added(Omit(form, "foto"))
  }

  /** `handleUpdateMembro`: with no member being edited, or a blank name, the
      update is refused; otherwise the record without its `id` is written to
      the document with that id. */
  function UpdateMember(editing: Option<Record>): (o: SaveOutcome)
    ensures o == Rejected(NameAlert) <==>
      editing.None? || (Get(editing.value, "nome").Str? && AllSpaces(Get(editing.value, "nome").s))
    ensures o == Crashed <==> editing.Some? && !Get(editing.value, "nome").Str?
    ensures o.Updated? <==> editing.Some? && Get(editing.value, "nome").Str? && !AllSpaces(Get(editing.value, "nome").s)
    ensures o.Updated? ==>
      o.docId == Get(editing.value, "id") && o.payload == Omit(editing.value, "id")
    ensures !o.Added?
  {
    if editing.None? then Rejected(NameAlert)
    else match NameBlank(editing.value)
      case None => Crashed
      case Some(blank) =>
        if blank then Rejected(NameAlert)
        else Updated(Get(editing.value, "id"), Omit(editing.value, "id"))
  }

  /** The add form fresh from the dialog has no name, so saving it at once
      is refused. */
  lemma FreshFormRefused()
    ensures AddMember(InitialMember()) == Rejected(NameAlert)
  {
    assert "nome" in MemberFields;
  }

  /** Only the name decides whether a save goes through: changing any other
      field of the form does not change the verdict, and the payload changes
      only in that field (or not at all, for the photo). */
  lemma AddMemberOtherField(form: Record, name: string, value: string)
    requires name != "nome"
    ensures AddMember(Put(form, name, Str(value))).Added? == AddMember(form).Added?
    ensures AddMember(form).Added? && name != "foto" ==>
      AddMember(Put(form, name, Str(value))).payload == Put(AddMember(form).payload, name, Str(value))
    ensures AddMember(form).Added? && name == "foto" ==>
      AddMember(Put(form, name, Str(value))).payload == AddMember(form).payload
  {
    var form' := Put(form, name, Str(value));
    assert NameBlank(form') == NameBlank(form) by {
      assert Get(form', "nome") == Get(form, "nome");
    }
    if name != "foto" {
      OmitPutOther(form, name, Str(value), "foto");
    } else {
      OmitPutSame(form, name, Str(value));
    }
  }

  /** `value || 'Não informado'` in `DetalheCampo`: the text itself when it
      is not empty, else the placeholder. */
  function DetailText(value: Option<string>): (shown: string)
    ensures value.Some? && value.value != "" ==> shown == value.value
    ensures value.None? || value == Some("") ==> shown == NotInformed
    ensures shown != ""
  {
    if value.Some? && value.value != "" then value.value else NotInformed
  }

  /** The value passed to the address detail: street and number joined by a
      comma. */
  function AddressLine(m: Record): (line: string)
    ensures |line| >= 2
    ensures StartsWith(line, OrEmpty(Get(m, "endereco")) + ", ")
    ensures line[|OrEmpty(Get(m, "endereco"))| + 2..] == OrEmpty(Get(m, "numero"))
  {
    var head := OrEmpty(Get(m, "endereco")) + ", ";
    StartsWithAppend(head, OrEmpty(Get(m, "numero")));
    head + OrEmpty(Get(m, "numero"))
  }

  /** The value passed to the city detail: city and state joined by a
      dash. */
  function CityLine(m: Record): (line: string)
    ensures |line| >= 3
    ensures StartsWith(line, OrEmpty(Get(m, "cidade")) + " - ")
    ensures line[|OrEmpty(Get(m, "cidade"))| + 3..] == OrEmpty(Get(m, "estado"))
  {
    var head := OrEmpty(Get(m, "cidade")) + " - ";
    StartsWithAppend(head, OrEmpty(Get(m, "estado")));
    head + OrEmpty(Get(m, "estado"))
  }

  /** The composed address and city details are never shown as "Não
      informado", even for a member with none of those fields: the
      separator alone is shown then. */
  lemma ComposedDetailsNeverPlaceholder(m: Record)
    ensures DetailText(Some(AddressLine(m))) == AddressLine(m)
    ensures DetailText(Some(CityLine(m))) == CityLine(m)
    ensures Get(m, "endereco") == Undefined && Get(m, "numero") == Undefined ==> DetailText(Some(AddressLine(m))) == ", "
  {
  }

  class MembersPage {
    var members: seq<Record>
    var addOpen: bool
    var editOpen: bool
    var viewOpen: bool
    var newMember: Record
    var photoName: string
    var editMember: Option<Record>
    var selected: Option<Record>

    constructor ()
      ensures members == [] && newMember == InitialMember() && photoName == ""
      ensures !addOpen && !editOpen && !viewOpen && editMember == None && selected == None
    {
      members := [];
      addOpen := false;
      editOpen := false;
      viewOpen := false;
      newMember := InitialMember();
      photoName := "";
      editMember := None;
      selected := None;
    }

    /** The member list as fetched from the database. */
    method Loaded(fetched: seq<Record>)
      modifies this`members
      ensures members == fetched
    {
      members := fetched;
    }

    /** `handleAddClickOpen`: a blank form and no chosen photo. */
    method OpenAdd()
      modifies this`newMember, this`photoName, this`addOpen
      ensures newMember == InitialMember() && photoName == "" && addOpen
    {
      newMember := InitialMember();
      photoName := "";
      addOpen := true;
    }

    /** `handleAddClose` */
    method CloseAdd()
      modifies this`addOpen
      ensures !addOpen
    {
      addOpen := false;
    }

    /** `handleChange`: the named field takes the input's text, in the edit
        record when the edit dialog is open and in the new record
        otherwise. */
    method Change(name: string, value: string)
      modifies this`newMember, this`editMember
      ensures editOpen ==> editMember == Some(Put(old(editMember).GetOr(map[]), name, Str(value))) && newMember == old(newMember)
      ensures !editOpen ==> newMember == Put(old(newMember), name, Str(value)) && editMember == old(editMember)
    {
      if editOpen {
        editMember := Some(Put(editMember.GetOr(map[]), name, Str(value)));
      } else {
        newMember := Put(newMember, name, Str(value));
      }
    }

    /** `handleViewClickOpen` / `handleViewClose` */
    method OpenView(m: Record)
      modifies this`selected, this`viewOpen
      ensures selected == Some(m) && viewOpen
    {
      selected := Some(m);
      viewOpen := true;
    }

    method CloseView()
      modifies this`selected, this`viewOpen
      ensures selected == None && !viewOpen
    {
      viewOpen := false;
      selected := None;
    }

    /** `handleEditClickOpen` / `handleEditClose` */
    method OpenEdit(m: Record)
      modifies this`editMember, this`editOpen
      ensures editMember == Some(m) && editOpen
    {
      editMember := Some(m);
      editOpen := true;
    }

    method CloseEdit()
      modifies this`editMember, this`editOpen
      ensures editMember == None && !editOpen
    {
      editOpen := false;
      editMember := None;
    }

    /** `handleSalvarMembro`; `writeOk` is whether the database accepted the
        new document. A failed write is only logged, so it shows no alert. */
    method Save(writeOk: bool) returns (o: SaveOutcome, alert: Option<string>)
      modifies this`addOpen
      ensures o == AddMember(newMember)
      ensures o.Rejected? ==> alert == Some(o.alert) && addOpen == old(addOpen)
      ensures o.Added? && writeOk ==>
        alert == Some("Membro \"" + OrEmpty(Get(newMember, "nome")) + "\" adicionado com sucesso!") && !addOpen
      ensures (o.Added? && !writeOk) || o == Crashed ==> alert == None && addOpen == old(addOpen)
    {
      o := AddMember(newMember);
      if o.Rejected? {
        alert := Some(o.alert);
      } else if o.Added? && writeOk {
        alert := Some("Membro \"" + OrEmpty(Get(newMember, "nome")) + "\" adicionado com sucesso!");
        CloseAdd();
      } else {
        alert := None;
      }
    }

    /** `handleUpdateMembro`; `writeOk` is whether the database accepted the
        update. A successful update closes the edit dialog. */
    method Update(writeOk: bool) returns (o: SaveOutcome, alert: Option<string>)
      modifies this`editOpen, this`editMember
      ensures o == UpdateMember(old(editMember))
      ensures o.Rejected? ==> alert == Some(o.alert) && editOpen == old(editOpen) && editMember == old(editMember)
      ensures o.Updated? && writeOk ==>
        alert == Some("Dados de \"" + OrEmpty(Get(o.payload, "nome")) + "\" atualizados com sucesso!")
        && !editOpen && editMember == None
      ensures o.Updated? && !writeOk ==> alert == Some(UpdateErrorAlert) && editOpen == old(editOpen) && editMember == old(editMember)
      ensures o == Crashed ==> alert == None && editOpen == old(editOpen) && editMember == old(editMember)
    {
      o := UpdateMember(editMember);
      match o
      case Updated(_, payload) =>
        if writeOk {
          alert := Some("Dados de \"" + OrEmpty(Get(payload, "nome")) + "\" atualizados com sucesso!");
          CloseEdit();
        } else {
          alert := Some(UpdateErrorAlert);
        }
      case Rejected(message) =>
        alert := Some(message);
      case _ =>
        alert := None;
    }
  }
}
