// The state of one obra (construction work) page and the reducer its provider
// dispatches to. Obras, presupuestos, mediciones and certificados are records of
// named fields with values of type `V`.

module ObraReducer {
  import opened Strings

  type Record<V> = map<string, V>

  datatype ObraState<V> = ObraState(
    obra: Option<Record<V>>,
    presupuestos: seq<Record<V>>,
    mediciones: seq<Record<V>>,
    certificados: seq<Record<V>>,
    loading: bool,
    error: Option<string>)

  /** The dispatched actions; `Other` is any action type the reducer does not know. */
  datatype ObraAction<V> =
    | SetLoading(loading: bool)
    | SetError(error: Option<string>)
    | SetObra(obra: Record<V>)
    | SetPresupuestos(presupuestos: seq<Record<V>>)
    | SetMediciones(mediciones: seq<Record<V>>)
    | SetCertificados(certificados: seq<Record<V>>)
    | UpdateObra(changes: Record<V>)
    | AddPresupuesto(presupuesto: Record<V>)
    | AddMedicion(medicion: Record<V>)
    | AddCertificado(certificado: Record<V>)
    | Other(kind: string)

  datatype Field = Obra | Presupuestos | Mediciones | Certificados | Loading | Error

  /** `{ ...state.obra, ...payload }`: spreading `null` contributes no fields, and the
      payload's fields win. */
  function Merge<V>(obra: Option<Record<V>>, changes: Record<V>): Record<V>
  {
    (if obra.Some? then obra.value else map[]) + changes
  }

  /** `obraReducer`. */
  function Reduce<V>(state: ObraState<V>, action: ObraAction<V>): ObraState<V>
  {
    match action
    case SetLoading(b) => state.(loading := b)
    case SetError(e) => state.(error := e)
    case SetObra(o) => state.(obra := Some(o))
    case SetPresupuestos(ps) => state.(presupuestos := ps)
    case SetMediciones(ms) => state.(mediciones := ms)
    case SetCertificados(cs) => state.(certificados := cs)
    case UpdateObra(changes) => state.(obra := Some(Merge(state.obra, changes)))
    case AddPresupuesto(p) => state.(presupuestos := state.presupuestos + [p])
    case AddMedicion(m) => state.(mediciones := state.mediciones + [m])
    case AddCertificado(c) => state.(certificados := state.certificados + [c])
    case Other(_) => state
  }

  /** The one field an action is about; `None` for an unknown action. */
  function Target<V>(action: ObraAction<V>): Option<Field>
  {
    match action
    case SetLoading(_) => Some(Loading)
    case SetError(_) => Some(Error)
    case SetObra(_) => Some(Obra)
    case UpdateObra(_) => Some(Obra)
    case SetPresupuestos(_) => Some(Presupuestos)
    case AddPresupuesto(_) => Some(Presupuestos)
    case SetMediciones(_) => Some(Mediciones)
    case AddMedicion(_) => Some(Mediciones)
    case SetCertificados(_) => Some(Certificados)
    case AddCertificado(_) => Some(Certificados)
    case Other(_) => None
  }

  /** `a` and `b` agree on every field except (possibly) `f`. */
  ghost predicate SameExcept<V>(a: ObraState<V>, b: ObraState<V>, f: Option<Field>)
  {
    (f != Some(Obra) ==> a.obra == b.obra) &&
    (f != Some(Presupuestos) ==> a.presupuestos == b.presupuestos) &&
    (f != Some(Mediciones) ==> a.mediciones == b.mediciones) &&
    (f != Some(Certificados) ==> a.certificados == b.certificados) &&
    (f != Some(Loading) ==> a.loading == b.loading) &&
    (f != Some(Error) ==> a.error == b.error)
  }

  /** Every action changes at most the field it is about; an unknown one changes nothing. */
  lemma OnlyTargetChanges<V>(state: ObraState<V>, action: ObraAction<V>)
    ensures SameExcept(state, Reduce(state, action), Target(action))
    ensures action.Other? ==> Reduce(state, action) == state
  {
  }

  /** A `SET_*` action leaves its field holding exactly the payload. */
  lemma SetStoresPayload<V>(state: ObraState<V>, action: ObraAction<V>)
    ensures var r := Reduce(state, action);
            (action.SetLoading? ==> r.loading == action.loading) &&
            (action.SetError? ==> r.error == action.error) &&
            (action.SetObra? ==> r.obra == Some(action.obra)) &&
            (action.SetPresupuestos? ==> r.presupuestos == action.presupuestos) &&
            (action.SetMediciones? ==> r.mediciones == action.mediciones) &&
            (action.SetCertificados? ==> r.certificados == action.certificados)
  {
  }

  /** An `ADD_*` action appends its payload after the existing entries. */
  lemma AddAppends<V>(state: ObraState<V>, action: ObraAction<V>)
    ensures var r := Reduce(state, action);
            (action.AddPresupuesto? ==>
               (|r.presupuestos| == |state.presupuestos| + 1 &&
                r.presupuestos[..|state.presupuestos|] == state.presupuestos &&
                r.presupuestos[|state.presupuestos|] == action.presupuesto)) &&
            (action.AddMedicion? ==>
               (|r.mediciones| == |state.mediciones| + 1 &&
                r.mediciones[..|state.mediciones|] == state.mediciones &&
                r.mediciones[|state.mediciones|] == action.medicion)) &&
            (action.AddCertificado? ==>
               (|r.certificados| == |state.certificados| + 1 &&
                r.certificados[..|state.certificados|] == state.certificados &&
                r.certificados[|state.certificados|] == action.certificado))
  {
  }

  /** `UPDATE_OBRA` keeps the fields it does not mention, takes the changed ones from the
      payload, and gives an obra even when there was none. */
  lemma UpdateObraMerges<V>(state: ObraState<V>, changes: Record<V>, k: string)
    ensures var r := Reduce(state, UpdateObra(changes));
            r.obra.Some? &&
            (k in r.obra.value <==> k in changes || (state.obra.Some? && k in state.obra.value)) &&
            (k in changes ==> r.obra.value[k] == changes[k]) &&
            (k !in changes && state.obra.Some? && k in state.obra.value ==> r.obra.value[k] == state.obra.value[k])
  {
  }

  /** Without an obra, `UPDATE_OBRA` makes the payload the obra. */
  lemma UpdateWithoutObra<V>(state: ObraState<V>, changes: Record<V>)
    requires state.obra.None?
    ensures Reduce(state, UpdateObra(changes)).obra == Some(changes)
  {
    assert map[] + changes == changes;
  }

  /** Setting or merging the same payload twice is the same as doing it once. */
  lemma ReplayIdempotent<V>(state: ObraState<V>, action: ObraAction<V>)
    requires !(action.AddPresupuesto? || action.AddMedicion? || action.AddCertificado?)
    ensures Reduce(Reduce(state, action), action) == Reduce(state, action)
  {
    if action.UpdateObra? {
      var once := Merge(state.obra, action.changes);
      assert once + action.changes == once;
    }
  }
}
