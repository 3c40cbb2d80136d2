/** The finance ledger page (src/app/admin/financas/page.tsx): entries of
    income ("entrada") and expense ("saida"), a form to add or edit one, and
    the running totals and balance shown above the table. */
module Finance {
  import opened Wrappers
  import opened JsNumber
  import opened JsRecord
  import opened Outcomes

  const FillAlert: string := "Por favor, preencha Categoria, Descrição e Valor."
  const AmountAlert: string := "Por favor, insira um valor numérico válido e positivo."
  const UpdatedAlert: string := "Lançamento atualizado com sucesso!"
  const AddedAlert: string := "Lançamento salvo com sucesso!"
  const SaveErrorAlert: string := "Ocorreu um erro ao salvar o lançamento."
  const DeletedAlert: string := "Lançamento excluído com sucesso."
  const DeleteErrorAlert: string := "Ocorreu um erro ao excluir o lançamento."

  /** The fields a save requires. */
  const Required: seq<string> := ["categoria", "valor", "descricao"]

  /** `estadoInicialLancamento`, whose date is the day the page module was
      loaded. */
  function InitialEntry(today: string): (r: Record)
    ensures Get(r, "tipo") == Str("entrada") && Get(r, "data") == Str(today)
    ensures Get(r, "categoria") == Str("") && Get(r, "descricao") == Str("") && Get(r, "valor") == Str("")
    ensures r.Keys == {"tipo", "categoria", "descricao", "valor", "data"}
  {
    map["tipo" := Str("entrada"), "categoria" := Str(""), "descricao" := Str(""), "valor" := Str(""), "data" := Str(today)]
  }

  /** `parseFloat(valor)` when it is a positive number. */
  function PositiveAmount(r: Record): (amount: Option<real>)
    ensures amount.Some? <==> ParseFloatOf(Get(r, "valor")).Val? && ParseFloatOf(Get(r, "valor")).r > 0.0
    ensures amount.Some? ==> amount.value == ParseFloatOf(Get(r, "valor")).r && amount.value > 0.0
  {
    match ParseFloatOf(Get(r, "valor"))
    case NaN => None
    case Val(v) => if v <= 0.0 then None else Some(v)
  }

  /** The required-field test of `handleSalvar`. */
  lemma FilledRequired(r: Record)
    ensures Filled(r, Required) <==>
      Truthy(Get(r, "categoria")) && Truthy(Get(r, "valor")) && Truthy(Get(r, "descricao"))
  {
    assert "categoria" in Required && "valor" in Required && "descricao" in Required;
  }

  /** `{ ...novoLancamento, valor: valorNumerico }` */
  function AddPayload(r: Record, amount: real): (p: Record)
    ensures Get(p, "valor") == Number(Val(amount))
    ensures forall k :: k != "valor" ==> Get(p, k) == Get(r, k)
  {
    Put(r, "valor", Number(Val(amount)))
  }

  /** `{ ...dadosParaAtualizar, valor: valorNumerico }`, where
      `dadosParaAtualizar` is the record without its `id`. */
  function EditPayload(r: Record, amount: real): (p: Record)
    ensures Get(p, "valor") == Number(Val(amount)) && "id" !in p
    ensures forall k :: k != "valor" && k != "id" ==> Get(p, k) == Get(r, k)
  {
    Put(Omit(r, "id"), "valor", Number(Val(amount)))
  }

  /** `handleSalvar`: the record being saved is the edited one when the edit
      dialog is open (possibly still null) and the new one otherwise. */
  function SaveEntry(current: Option<Record>, editing: bool): (o: SaveOutcome)
    ensures o == Crashed <==> current.None?
    ensures current.Some? && !Filled(current.value, Required) ==> o == Rejected(FillAlert)
    ensures current.Some? && Filled(current.value, Required) && PositiveAmount(current.value).None?
      ==> o == Rejected(AmountAlert)
    ensures o.Added? ==> !editing
    ensures o.Updated? ==> editing
    ensures o.Added? || o.Updated? <==>
      current.Some? && Filled(current.value, Required) && PositiveAmount(current.value).Some?
    ensures o.Added? ==>
      Get(o.payload, "valor") == Number(Val(PositiveAmount(current.value).value))
      && forall k :: k != "valor" ==> Get(o.payload, k) == Get(current.value, k)
    ensures o.Updated? ==>
      o.docId == Get(current.value, "id")
      && Get(o.payload, "valor") == Number(Val(PositiveAmount(current.value).value))
      && "id" !in o.payload
      && forall k :: k != "valor" && k != "id" ==> Get(o.payload, k) == Get(current.value, k)
  {
    if current.None? then Crashed
    else
      var r := current.value;
      FilledRequired(r);
      if !Truthy(Get(r, "categoria")) || !Truthy(Get(r, "valor")) || !Truthy(Get(r, "descricao")) then
        Rejected(FillAlert)
      else match PositiveAmount(r)
        case None => Rejected(AmountAlert)
        case Some(v) =>
          if editing then Updated(Get(r, "id"), EditPayload(r, v))
          else Added(AddPayload(r, v))
  }

  /** Every amount the page writes is a positive number. */
  lemma SavedAmountPositive(current: Option<Record>, editing: bool)
    requires SaveEntry(current, editing).Added? || SaveEntry(current, editing).Updated?
    ensures var p := SaveEntry(current, editing).payload;
      Get(p, "valor").Number? && Get(p, "valor").n.Val? && Get(p, "valor").n.r > 0.0
  {
  }

  // ----- totals -----

  /** `Number(lancamento.valor)` */
  function Amount(e: Record): Num {
    NumberOf(Get(e, "valor"))
  }

  /** What one entry adds to the total of a kind: its amount when it is a
      number and the entry is of that kind, else nothing. */
  function Contribution(e: Record, kind: string): (c: real)
    ensures Get(e, "tipo") != Str(kind) || Amount(e).NaN? ==> c == 0.0
    ensures Get(e, "tipo") == Str(kind) && Amount(e).Val? ==> c == Amount(e).r
  {
    if Get(e, "tipo") == Str(kind) && Amount(e).Val? then Amount(e).r else 0.0
  }

  /** The total of the entries of one kind. */
  function SumOfKind(entries: seq<Record>, kind: string): real {
    if entries == [] then 0.0
    else SumOfKind(entries[..|entries| - 1], kind) + Contribution(entries[|entries| - 1], kind)
  }

  datatype Totals = Totals(totalEntradas: real, totalSaidas: real, saldoAtual: real)

  /** The `useMemo` that totals the ledger: income, expenses, and their
      difference as the balance. */
  method ComputeTotals(entries: seq<Record>) returns (t: Totals)
    ensures t.totalEntradas == SumOfKind(entries, "entrada")
    ensures t.totalSaidas == SumOfKind(entries, "saida")
    ensures t.saldoAtual == t.totalEntradas - t.totalSaidas
  {
    var entradas := 0.0;
    var saidas := 0.0;
    for i := 0 to |entries|
      invariant entradas == SumOfKind(entries[..i], "entrada")
      invariant saidas == SumOfKind(entries[..i], "saida")
    {
      assert entries[..i + 1][..i] == entries[..i];
      var e := entries[i];
      var valor := NumberOf(Get(e, "valor"));
      if valor.Val? {
        if Get(e, "tipo") == Str("entrada") {
          entradas := entradas + valor.r;
        } else if Get(e, "tipo") == Str("saida") {
          saidas := saidas + valor.r;
        }
      }
    }
    assert entries[..|entries|] == entries;
    t := Totals(entradas, saidas, entradas - saidas);
  }

  /** Totals add up over a split ledger. */
  lemma {:induction false} SumOfKindAppend(a: seq<Record>, b: seq<Record>, kind: string)
    ensures SumOfKind(a + b, kind) == SumOfKind(a, kind) + SumOfKind(b, kind)
  {
    if b == [] {
      assert a + b == a;
    } else {
      assert (a + b)[..|a + b| - 1] == a + b[..|b| - 1];
      SumOfKindAppend(a, b[..|b| - 1], kind);
    }
  }

  /** With no negative amount among the entries of a kind, their total is
      not negative. */
  lemma {:induction false} SumOfKindNonNegative(entries: seq<Record>, kind: string)
    requires forall i :: 0 <= i < |entries| ==> Contribution(entries[i], kind) >= 0.0
    ensures SumOfKind(entries, kind) >= 0.0
  {
    if entries != [] {
      SumOfKindNonNegative(entries[..|entries| - 1], kind);
    }
  }

  /** Entries of another kind, or whose amount is not a number, leave a
      total unchanged. */
  lemma IgnoredEntry(entries: seq<Record>, e: Record, kind: string)
    requires Get(e, "tipo") != Str(kind) || Amount(e).NaN?
    ensures SumOfKind(entries + [e], kind) == SumOfKind(entries, kind)
  {
    assert (entries + [e])[..|entries|] == entries;
  }

  /** A newly added income entry raises the income total by exactly its
      amount and leaves the expense total alone. */
  lemma AddedIncomeCounts(entries: seq<Record>, form: Record)
    requires SaveEntry(Some(form), false).Added?
    requires Get(form, "tipo") == Str("entrada")
    ensures var p := SaveEntry(Some(form), false).payload;
      SumOfKind(entries + [p], "entrada") == SumOfKind(entries, "entrada") + PositiveAmount(form).value
      && SumOfKind(entries + [p], "saida") == SumOfKind(entries, "saida")
  {
    var p := SaveEntry(Some(form), false).payload;
    assert (entries + [p])[..|entries|] == entries;
    assert Get(p, "tipo") == Str("entrada");
  }

  class FinancePage {
    var entries: seq<Record>
    var addOpen: bool
    var editOpen: bool
    var deleteOpen: bool
    var newEntry: Record
    var editEntry: Option<Record>
    var selected: Option<Record>
    const today: string

    constructor (today: string)
      ensures this.today == today && entries == [] && newEntry == InitialEntry(today)
      ensures !addOpen && !editOpen && !deleteOpen && editEntry == None && selected == None
    {
      this.today := today;
      entries := [];
      addOpen := false;
      editOpen := false;
      deleteOpen := false;
      newEntry := InitialEntry(today);
      editEntry := None;
      selected := None;
    }

    /** The ledger as fetched from the database. */
    method Loaded(fetched: seq<Record>)
      modifies this`entries
      ensures entries == fetched
    {
      entries := fetched;
    }

    /** `handleAddClickOpen`: a blank form in the add dialog. */
    method OpenAdd()
      modifies this`newEntry, this`addOpen
      ensures newEntry == InitialEntry(today) && addOpen
    {
      newEntry := InitialEntry(today);
      addOpen := true;
    }

    /** `handleAddClose` */
    method CloseAdd()
      modifies this`addOpen
      ensures !addOpen
    {
      addOpen := false;
    }

    /** `handleChange`: the named field of the record being edited takes the
        text of the input (a null edit record becomes a record of that one
        field); every other field is untouched, by `Put`. */
    method Change(name: string, value: string)
      modifies this`newEntry, this`editEntry
      ensures editOpen ==> editEntry == Some(Put(old(editEntry).GetOr(map[]), name, Str(value))) && newEntry == old(newEntry)
      ensures !editOpen ==> newEntry == Put(old(newEntry), name, Str(value)) && editEntry == old(editEntry)
    {
      if editOpen {
        editEntry := Some(Put(editEntry.GetOr(map[]), name, Str(value)));
      } else {
        newEntry := Put(newEntry, name, Str(value));
      }
    }

    /** `handleEditClickOpen` */
    method OpenEdit(e: Record)
      modifies this`editEntry, this`editOpen
      ensures editEntry == Some(e) && editOpen
    {
      editEntry := Some(e);
      editOpen := true;
    }

    /** `handleEditClose` */
    method CloseEdit()
      modifies this`editEntry, this`editOpen
      ensures editEntry == None && !editOpen
    {
      editOpen := false;
      editEntry := None;
    }

    /** `handleSalvar`: the write it issues (or why it stops) and the alert
        it shows; `writeOk` is whether the database accepted the write. A
        successful write closes its dialog. */
    method Save(writeOk: bool) returns (o: SaveOutcome, alert: Option<string>)
      modifies this`addOpen, this`editOpen, this`editEntry
      ensures o == SaveEntry(if old(editOpen) then old(editEntry) else Some(newEntry), old(editOpen))
      ensures o.Rejected? ==> alert == Some(o.alert)
      ensures o == Crashed ==> alert == None
      ensures (o.Added? || o.Updated?) && !writeOk ==> alert == Some(SaveErrorAlert)
      ensures o.Updated? && writeOk ==> alert == Some(UpdatedAlert) && !editOpen && editEntry == None
      ensures o.Added? && writeOk ==> alert == Some(AddedAlert) && !addOpen
      ensures !(writeOk && (o.Added? || o.Updated?)) ==>
        addOpen == old(addOpen) && editOpen == old(editOpen) && editEntry == old(editEntry)
      ensures o.Added? ==> editOpen == old(editOpen) && editEntry == old(editEntry)
      ensures o.Updated? ==> addOpen == old(addOpen)
    {
      o := SaveEntry(if editOpen then editEntry else Some(newEntry), editOpen);
      match o
      case Crashed =>
        alert := None;
      case Rejected(message) =>
        alert := Some(message);
      case Updated(_, _) =>
        if writeOk {
          alert := Some(UpdatedAlert);
          CloseEdit();
        } else {
          alert := Some(SaveErrorAlert);
        }
      case Added(_) =>
        if writeOk {
          alert := Some(AddedAlert);
          CloseAdd();
        } else {
          alert := Some(SaveErrorAlert);
        }
    }

    /** `handleDeleteClickOpen` */
    method OpenDelete(e: Record)
      modifies this`selected, this`deleteOpen
      ensures selected == Some(e) && deleteOpen
    {
      selected := Some(e);
      deleteOpen := true;
    }

    /** `handleDeleteClose` */
    method CloseDelete()
      modifies this`selected, this`deleteOpen
      ensures selected == None && !deleteOpen
    {
      deleteOpen := false;
      selected := None;
    }

    /** `handleConfirmDelete`: the id of the document to delete, when an
        entry is selected; a successful delete closes the dialog. */
    method ConfirmDelete(writeOk: bool) returns (deleteId: Option<JsValue>, alert: Option<string>)
      modifies this`selected, this`deleteOpen
      ensures old(selected).None? ==> deleteId == None && alert == None && selected == None && deleteOpen == old(deleteOpen)
      ensures old(selected).Some? ==> deleteId == Some(Get(old(selected).value, "id"))
      ensures old(selected).Some? && writeOk ==> alert == Some(DeletedAlert) && selected == None && !deleteOpen
      ensures old(selected).Some? && !writeOk ==> alert == Some(DeleteErrorAlert) && selected == old(selected) && deleteOpen == old(deleteOpen)
    {
      if selected.Some? {
        deleteId := Some(Get(selected.value, "id"));
        if writeOk {
          alert := Some(DeletedAlert);
          CloseDelete();
        } else {
          alert := Some(DeleteErrorAlert);
        }
      } else {
        deleteId := None;
        alert := None;
      }
    }

    /** The totals shown above the table. */
    method CurrentTotals() returns (t: Totals)
      ensures t.totalEntradas == SumOfKind(entries, "entrada")
      ensures t.totalSaidas == SumOfKind(entries, "saida")
      ensures t.saldoAtual == t.totalEntradas - t.totalSaidas
    {
      t := ComputeTotals(entries);
    }
  }
}
