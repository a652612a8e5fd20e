/** What the two request stores (aprobaciones/services.py, backed by the
    database, and aprobaciones/services_bck_24082025.py, backed by a JSON
    list) have in common: the effect of a state change on one request, the
    notifications they ask for, the replacement of one request in the
    collection, and the per-state statistics. */
module Almacen {
  import opened Wrappers
  import opened Constants
  import opened Models
  import Utils

  /** An e-mail handed to the notifier: address, subject and message. */
  datatype Aviso = Aviso(destinatario: string, asunto: string, mensaje: Utils.Mensaje)

  /** The result of one store call: the collection afterwards, the request
      returned to the caller (`None` when the identifier is unknown) and the
      notification sent, if any. */
  datatype Respuesta = Respuesta(store: Store, solicitud: Option<Solicitud>, aviso: Option<Aviso>)

  // ---------------------------------------------------------- notifications

  /** `_enviar_notificacion_nueva_solicitud`: to the approver, with the new-request template. */
  function AvisoNuevaSolicitud(s: Solicitud): (a: Aviso)
    ensures a.destinatario == s.responsable + "@gmail.com"
    ensures a.mensaje == Utils.DePlantilla(Utils.NuevaSolicitud)
  {
    Aviso(s.responsable + "@gmail.com", "Nueva solicitud de aprobación - " + s.titulo,
          Utils.CrearMensajeNotificacion("nueva_solicitud"))
  }

  /** `_enviar_notificacion_cambio_estado`: to the requester; the approval
      template for `aprobado` and the rejection template for every other
      target, `en_revision`, `pendiente` and `cancelado` included. */
  function AvisoCambioEstado(s: Solicitud, nuevo: string): (a: Aviso)
    ensures a.destinatario == s.solicitante + "@empresa.com"
    ensures a.mensaje == Utils.DePlantilla(Utils.SolicitudAprobada) <==> nuevo == APROBADO
    ensures a.mensaje == Utils.DePlantilla(Utils.SolicitudRechazada) <==> nuevo != APROBADO
  {
    var clave := if nuevo == APROBADO then "solicitud_aprobada" else "solicitud_rechazada";
    Aviso(s.solicitante + "@empresa.com", "Actualización de solicitud - " + s.titulo,
          Utils.CrearMensajeNotificacion(clave))
  }

  // ---------------------------------------------------------- state change

  /** True when `r` is `s` with only its state, update time, history and
      comments possibly different. */
  predicate SameRequestData(s: Solicitud, r: Solicitud) {
    && r.id == s.id && r.titulo == s.titulo && r.descripcion == s.descripcion
    && r.solicitante == s.solicitante && r.responsable == s.responsable
    && r.tipoSolicitud == s.tipoSolicitud && r.fechaCreacion == s.fechaCreacion
  }

  function Last<T>(s: seq<T>): T
    requires s != []
  {
    s[|s| - 1]
  }

  /** The body of `_cambiar_estado_solicitud` on the found request: the state
      is overwritten with no legality check, one history entry recording the
      previous state is appended, and one comment of kind `nuevo` is appended
      exactly when the comment text is non-empty. */
  function AplicarCambioEstado(s: Solicitud, nuevo: string, usuario: string, comentario: string, now: Instant): (r: Solicitud)
    ensures r.estado == nuevo
    ensures SameRequestData(s, r)
    ensures r.fechaActualizacion == now
    // history: append-only, exactly one entry more
    ensures |r.historial| == |s.historial| + 1
    ensures r.historial[..|s.historial|] == s.historial
    ensures Last(r.historial).accion == nuevo
    ensures Last(r.historial).usuario == usuario
    ensures Last(r.historial).fecha == now
    ensures Last(r.historial).estadoAnterior == Some(s.estado)
    ensures Last(r.historial).comentario != ""
    ensures comentario != "" ==> Last(r.historial).comentario == comentario
    ensures comentario == "" ==> Last(r.historial).comentario == "Solicitud " + nuevo
    // comments: one more exactly when a comment was given
    ensures |r.comentarios| > |s.comentarios| <==> comentario != ""
    ensures comentario == "" ==> r.comentarios == s.comentarios
    ensures comentario != "" ==>
      && |r.comentarios| == |s.comentarios| + 1
      && r.comentarios[..|s.comentarios|] == s.comentarios
      && Last(r.comentarios) == Comentario(usuario, comentario, now, nuevo)
  {
    var entrada := Historial(nuevo, usuario, now, if comentario != "" then comentario else "Solicitud " + nuevo, Some(s.estado));
    var comentarios := if comentario != "" then s.comentarios + [Comentario(usuario, comentario, now, nuevo)] else s.comentarios;
    assert (s.historial + [entrada])[..|s.historial|] == s.historial;
    assert comentario != "" ==> comentarios[..|s.comentarios|] == s.comentarios;
    s.(estado := nuevo, fechaActualizacion := now, historial := s.historial + [entrada], comentarios := comentarios)
  }

  // ------------------------------------------------------------ collection

  /** `solicitudes[i] = solicitud`: position `i` replaced, every other request untouched. */
  function Reemplazar(store: Store, i: nat, s: Solicitud): (r: Store)
    requires i < |store|
    ensures |r| == |store|
    ensures r[i] == s
    ensures forall j :: 0 <= j < |store| && j != i ==> r[j] == store[j]
  {
    store[i := s]
  }

  /** Replacing a request by one with the same identifier keeps identifiers unique. */
  lemma ReemplazarMismoId(store: Store, i: nat, s: Solicitud)
    requires i < |store| && s.id == store[i].id
    requires IdsUnicos(store)
    ensures IdsUnicos(Reemplazar(store, i, s))
  {
  }

  // ------------------------------------------------------------ statistics

  /** The number of requests whose state is `estado`. */
  function Contar(store: Store, estado: string): (n: nat)
    ensures n <= |store|
    ensures n == 0 <==> forall i :: 0 <= i < |store| ==> store[i].estado != estado
  {
    if store == [] then 0
    else (if store[0].estado == estado then 1 else 0) + Contar(store[1..], estado)
  }

  /** The number of requests whose state is none of the five codes. */
  function ContarOtros(store: Store): (n: nat)
    ensures n <= |store|
  {
    if store == [] then 0
    else (if store[0].estado !in ESTADO_CODES then 1 else 0) + ContarOtros(store[1..])
  }

  datatype Estadisticas = Estadisticas(total: nat, pendientes: nat, aprobadas: nat, rechazadas: nat, enRevision: nat)

  /** `obtener_estadisticas`: the total and four of the five per-state counts
      (`cancelado` has no bucket). */
  function ObtenerEstadisticas(store: Store): (e: Estadisticas)
    ensures e.total == |store|
    ensures e.pendientes == Contar(store, PENDIENTE)
    ensures e.aprobadas == Contar(store, APROBADO)
    ensures e.rechazadas == Contar(store, RECHAZADO)
    ensures e.enRevision == Contar(store, EN_REVISION)
    ensures e.pendientes + e.aprobadas + e.rechazadas + e.enRevision + Contar(store, CANCELADO) + ContarOtros(store) == e.total
    ensures e.pendientes + e.aprobadas + e.rechazadas + e.enRevision <= e.total
  {
    ContarReparte(store);
    Estadisticas(|store|, Contar(store, PENDIENTE), Contar(store, APROBADO), Contar(store, RECHAZADO), Contar(store, EN_REVISION))
  }

  /** Every request falls in exactly one bucket: one of the five states or "other". */
  lemma {:induction false} ContarReparte(store: Store)
    ensures Contar(store, PENDIENTE) + Contar(store, EN_REVISION) + Contar(store, APROBADO)
          + Contar(store, RECHAZADO) + Contar(store, CANCELADO) + ContarOtros(store) == |store|
  {
    if store != [] {
      ContarReparte(store[1..]);
    }
  }

  /** Replacing one request moves it from the bucket of its old state to the bucket of its new one. */
  lemma {:induction false} ContarReemplazar(store: Store, i: nat, s: Solicitud, estado: string)
    requires i < |store|
    ensures Contar(Reemplazar(store, i, s), estado) + (if store[i].estado == estado then 1 else 0)
         == Contar(store, estado) + (if s.estado == estado then 1 else 0)
  {
    if i > 0 {
      assert Reemplazar(store, i, s)[1..] == Reemplazar(store[1..], i - 1, s);
      ContarReemplazar(store[1..], i - 1, s, estado);
    } else {
      assert Reemplazar(store, i, s)[1..] == store[1..];
    }
  }
}
