/** The closed code sets of the approval system (aprobaciones/constants.py):
    request states, request types, history actions, comment kinds, and the
    per-state colour and icon tables.  The source keeps every code as a plain
    string; the tables below are those strings, and the enumerations give the
    same sets a closed shape with a checked round trip to and from the codes. */
module Constants {

  import opened Wrappers

  /** A (code, human-readable text) pair of a Django `choices` list. */
  datatype Choice = Choice(code: string, display: string)

  /** The codes of a choices list, in order. */
  function Codes(cs: seq<Choice>): (r: seq<string>)
    ensures |r| == |cs|
    ensures forall i :: 0 <= i < |cs| ==> r[i] == cs[i].code
  {
    seq(|cs|, i requires 0 <= i < |cs| => cs[i].code)
  }

  /** The label of `code` in a choices list (first match), if present. */
  function LabelOf(cs: seq<Choice>, code: string): (r: Option<string>)
    ensures r.Some? <==> code in Codes(cs)
    ensures r.Some? ==> exists i :: 0 <= i < |cs| && cs[i].code == code && cs[i].display == r.value
  {
    if cs == [] then None
    else if cs[0].code == code then Some(cs[0].display)
    else LabelOf(cs[1..], code)
  }

  predicate Distinct(s: seq<string>) {
    forall i, j :: 0 <= i < j < |s| ==> s[i] != s[j]
  }

  // ---------------------------------------------------------------- states

  const PENDIENTE: string := "pendiente"
  const EN_REVISION: string := "en_revision"
  const APROBADO: string := "aprobado"
  const RECHAZADO: string := "rechazado"
  const CANCELADO: string := "cancelado"

  const ESTADOS_SOLICITUD: seq<Choice> := [
    Choice(PENDIENTE, "Pendiente"),
    Choice(EN_REVISION, "En Revisión"),
    Choice(APROBADO, "Aprobado"),
    Choice(RECHAZADO, "Rechazado"),
    Choice(CANCELADO, "Cancelado")
  ]

  /** The five state codes, in the order of `ESTADOS_SOLICITUD`. */
  const ESTADO_CODES: seq<string> := [PENDIENTE, EN_REVISION, APROBADO, RECHAZADO, CANCELADO]

  /** States that still allow changes. */
  const ESTADOS_MODIFICABLES: seq<string> := [PENDIENTE, EN_REVISION]

  /** States from which no further change is allowed. */
  const ESTADOS_FINALES: seq<string> := [APROBADO, RECHAZADO, CANCELADO]

  /** Bootstrap colour class per state. */
  const COLORES_ESTADO: map<string, string> := map[
    PENDIENTE := "warning",
    EN_REVISION := "info",
    APROBADO := "success",
    RECHAZADO := "danger",
    CANCELADO := "secondary"
  ]

  /** Font Awesome icon class per state. */
  const ICONOS_ESTADO: map<string, string> := map[
    PENDIENTE := "fas fa-hourglass-half",
    EN_REVISION := "fas fa-eye",
    APROBADO := "fas fa-check-circle",
    RECHAZADO := "fas fa-times-circle",
    CANCELADO := "fas fa-ban"
  ]

  datatype Estado = Pendiente | EnRevision | Aprobado | Rechazado | Cancelado {

    function Code(): string {
      match this
      case Pendiente => PENDIENTE
      case EnRevision => EN_REVISION
      case Aprobado => APROBADO
      case Rechazado => RECHAZADO
      case Cancelado => CANCELADO
    }

    predicate IsFinal() {
      Aprobado? || Rechazado? || Cancelado?
    }
  }

  /** The state named by `code`, if it is one of the five state codes. */
  function EstadoFromCode(code: string): (r: Option<Estado>)
    ensures r.Some? <==> code in ESTADO_CODES
    ensures r.Some? ==> r.value.Code() == code
  {
    if code == PENDIENTE then Some(Pendiente)
    else if code == EN_REVISION then Some(EnRevision)
    else if code == APROBADO then Some(Aprobado)
    else if code == RECHAZADO then Some(Rechazado)
    else if code == CANCELADO then Some(Cancelado)
    else None
  }

  // ---------------------------------------------------------- request types

  const TIPOS_SOLICITUD: seq<Choice> := [
    Choice("despliegue", "Despliegue a Producción"),
    Choice("acceso", "Solicitud de Acceso"),
    Choice("cambio_tecnico", "Cambio Técnico"),
    Choice("pipeline", "Configuración Pipeline"),
    Choice("incorporacion", "Incorporación Personal"),
    Choice("otro", "Otro")
  ]

  const TIPO_CODES: seq<string> := ["despliegue", "acceso", "cambio_tecnico", "pipeline", "incorporacion", "otro"]

  datatype TipoSolicitud = Despliegue | Acceso | CambioTecnico | Pipeline | Incorporacion | Otro {

    function Code(): string {
      match this
      case Despliegue => "despliegue"
      case Acceso => "acceso"
      case CambioTecnico => "cambio_tecnico"
      case Pipeline => "pipeline"
      case Incorporacion => "incorporacion"
      case Otro => "otro"
    }
  }

  function TipoFromCode(code: string): (r: Option<TipoSolicitud>)
    ensures r.Some? <==> code in TIPO_CODES
    ensures r.Some? ==> r.value.Code() == code
  {
    if code == "despliegue" then Some(Despliegue)
    else if code == "acceso" then Some(Acceso)
    else if code == "cambio_tecnico" then Some(CambioTecnico)
    else if code == "pipeline" then Some(Pipeline)
    else if code == "incorporacion" then Some(Incorporacion)
    else if code == "otro" then Some(Otro)
    else None
  }

  // -------------------------------------------------------- history actions

  const ACCIONES_HISTORIAL: seq<Choice> := [
    Choice("creada", "Creada"),
    Choice("actualizada", "Actualizada"),
    Choice(APROBADO, "Aprobada"),
    Choice(RECHAZADO, "Rechazada"),
    Choice(CANCELADO, "Cancelada"),
    Choice(EN_REVISION, "En Revisión")
  ]

  const ACCION_CODES: seq<string> := ["creada", "actualizada", APROBADO, RECHAZADO, CANCELADO, EN_REVISION]

  datatype AccionHistorial = Creada | Actualizada | AccionAprobado | AccionRechazado | AccionCancelado | AccionEnRevision {

    function Code(): string {
      match this
      case Creada => "creada"
      case Actualizada => "actualizada"
      case AccionAprobado => APROBADO
      case AccionRechazado => RECHAZADO
      case AccionCancelado => CANCELADO
      case AccionEnRevision => EN_REVISION
    }
  }

  // ---------------------------------------------------------- comment kinds

  const TIPOS_COMENTARIO: seq<Choice> := [
    Choice("general", "Comentario General"),
    Choice(APROBADO, "Comentario de Aprobación"),
    Choice(RECHAZADO, "Comentario de Rechazo"),
    Choice("revision", "Comentario de Revisión")
  ]

  const COMENTARIO_CODES: seq<string> := ["general", APROBADO, RECHAZADO, "revision"]

  datatype TipoComentario = General | ComentarioAprobado | ComentarioRechazado | Revision {

    function Code(): string {
      match this
      case General => "general"
      case ComentarioAprobado => APROBADO
      case ComentarioRechazado => RECHAZADO
      case Revision => "revision"
    }
  }

  // ------------------------------------------------------------- properties

  /** The code lists above are exactly the codes of the choices tables. */
  lemma CodeListsMatchTables()
    ensures Codes(ESTADOS_SOLICITUD) == ESTADO_CODES
    ensures Codes(TIPOS_SOLICITUD) == TIPO_CODES
    ensures Codes(ACCIONES_HISTORIAL) == ACCION_CODES
    ensures Codes(TIPOS_COMENTARIO) == COMENTARIO_CODES
  {
  }

  /** No two states, types, actions or comment kinds share a code. */
  lemma CodesAreDistinct()
    ensures Distinct(ESTADO_CODES)
    ensures Distinct(TIPO_CODES)
    ensures Distinct(ACCION_CODES)
    ensures Distinct(COMENTARIO_CODES)
  {
  }

  /** Each enumeration is in one-to-one correspondence with its code list. */
  lemma EnumerationsMatchCodes()
    ensures forall e: Estado :: e.Code() in ESTADO_CODES && EstadoFromCode(e.Code()) == Some(e)
    ensures forall t: TipoSolicitud :: t.Code() in TIPO_CODES && TipoFromCode(t.Code()) == Some(t)
    ensures forall a: AccionHistorial :: a.Code() in ACCION_CODES
    ensures forall c :: c in ACCION_CODES ==> exists a: AccionHistorial :: a.Code() == c
    ensures forall t: TipoComentario :: t.Code() in COMENTARIO_CODES
    ensures forall c :: c in COMENTARIO_CODES ==> exists t: TipoComentario :: t.Code() == c
  {
    assert Creada.Code() == "creada" && Actualizada.Code() == "actualizada";
    assert AccionAprobado.Code() == APROBADO && AccionRechazado.Code() == RECHAZADO;
    assert AccionCancelado.Code() == CANCELADO && AccionEnRevision.Code() == EN_REVISION;
    assert General.Code() == "general" && Revision.Code() == "revision";
    assert ComentarioAprobado.Code() == APROBADO && ComentarioRechazado.Code() == RECHAZADO;
  }

  /** The modifiable and final states split the five states into two disjoint halves,
      and the final ones are exactly the enumeration's final states. */
  lemma StatePartition()
    ensures forall s :: s in ESTADOS_MODIFICABLES ==> s !in ESTADOS_FINALES
    ensures forall s :: s in ESTADO_CODES <==> s in ESTADOS_MODIFICABLES || s in ESTADOS_FINALES
    ensures forall e: Estado :: e.IsFinal() <==> e.Code() in ESTADOS_FINALES
  {
  }

  /** The colour and icon tables are defined on exactly the five states. */
  lemma StyleTablesCoverStates()
    ensures COLORES_ESTADO.Keys == ICONOS_ESTADO.Keys
    ensures forall s :: s in COLORES_ESTADO <==> s in ESTADO_CODES
  {
  }
}
