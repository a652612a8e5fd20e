/** The earlier, list-backed `SolicitudStorageService` of
    aprobaciones/services_bck_24082025.py.  The whole JSON list is loaded,
    changed and saved on every call; here the list is a value and each call
    returns the new one.  Requests are looked up by their first occurrence and
    returned as stored (no re-ordering of history or comments). */
module ServicesJson {
  import opened Wrappers
  import opened Constants
  import opened Models
  import opened Almacen
  import Forms

  const COMENTARIO_CREADA: string := "Solicitud creada"

  /** `crear_solicitud`: the new request goes at the end of the list, in state
      `pendiente`, with one `creada` history entry (which has no previous-state
      field) and no comments; the approver is notified.  The identifier stands
      for a fresh UUID and is not checked against the list. */
  function CrearSolicitud(store: Store, form: Forms.FormData, id: string, now: Instant): (r: Respuesta)
    ensures |r.store| == |store| + 1 && r.store[..|store|] == store
    ensures var n := r.store[|store|];
      && n.id == id
      && n.titulo == form.titulo && n.descripcion == form.descripcion
      && n.solicitante == form.solicitante && n.responsable == form.responsable
      && n.tipoSolicitud == form.tipoSolicitud
      && n.estado == PENDIENTE
      && n.fechaCreacion == now && n.fechaActualizacion == now
      && n.historial == [Historial("creada", form.solicitante, now, COMENTARIO_CREADA, None)]
      && n.comentarios == []
      && r.solicitud == Some(n)
      && r.aviso == Some(AvisoNuevaSolicitud(n))
  {
    var n := Solicitud(id, form.titulo, form.descripcion, form.solicitante, form.responsable, form.tipoSolicitud,
                       PENDIENTE, now, now, [Historial("creada", form.solicitante, now, COMENTARIO_CREADA, None)], []);
    assert (store + [n])[..|store|] == store;
    Respuesta(store + [n], Some(n), Some(AvisoNuevaSolicitud(n)))
  }

  /** `obtener_solicitud_por_id`: the first request with that identifier, as stored. */
  function ObtenerPorId(store: Store, id: string): (r: Option<Solicitud>)
    ensures r.None? <==> !HasId(store, id)
    ensures r.Some? ==> exists i: nat :: PrimeraCon(store, id, i) && r.value == store[i]
  {
    match Buscar(store, id)
    case None => None
    case Some(i) => Some(store[i])
  }

  /** A second request created under an identifier already in the list is
      never found: the earlier one shadows it. */
  lemma DuplicadoOculto(store: Store, form: Forms.FormData, id: string, now: Instant)
    requires HasId(store, id)
    ensures ObtenerPorId(CrearSolicitud(store, form, id, now).store, id) == ObtenerPorId(store, id)
  {
    var s' := CrearSolicitud(store, form, id, now).store;
    var i := Buscar(store, id).value;
    assert forall j :: 0 <= j <= i ==> s'[j] == s'[..|store|][j];
    BuscarPrimera(s', id, i);
  }

  /** The body of `actualizar_solicitud` on the found request: every supplied
      key except `id` is written, state, requester and approver included, and
      the update time is set.  No history entry is added. */
  function AplicarActualizacion(s: Solicitud, datos: map<Clave, string>, now: Instant): (u: Solicitud)
    ensures forall k: Clave :: Leer(u, k) == (if k in datos && k != ClaveId then datos[k] else Leer(s, k))
    ensures u.fechaCreacion == s.fechaCreacion && u.fechaActualizacion == now
    ensures u.historial == s.historial && u.comentarios == s.comentarios
  {
    s.(
      titulo := if ClaveTitulo in datos then datos[ClaveTitulo] else s.titulo,
      descripcion := if ClaveDescripcion in datos then datos[ClaveDescripcion] else s.descripcion,
      solicitante := if ClaveSolicitante in datos then datos[ClaveSolicitante] else s.solicitante,
      responsable := if ClaveResponsable in datos then datos[ClaveResponsable] else s.responsable,
      tipoSolicitud := if ClaveTipoSolicitud in datos then datos[ClaveTipoSolicitud] else s.tipoSolicitud,
      estado := if ClaveEstado in datos then datos[ClaveEstado] else s.estado,
      fechaActualizacion := now)
  }

  /** `actualizar_solicitud`: only the first request with that identifier
      changes; an unknown identifier leaves the list as it was. */
  function ActualizarSolicitud(store: Store, id: string, datos: map<Clave, string>, now: Instant): (r: Respuesta)
    ensures r.aviso == None
    ensures !HasId(store, id) ==> r == Respuesta(store, None, None)
    ensures HasId(store, id) ==> exists i: nat :: PrimeraCon(store, id, i) && ActualizadaEn(store, r, i, datos, now)
  {
    match Buscar(store, id)
    case None => Respuesta(store, None, None)
    case Some(i) =>
      var u := AplicarActualizacion(store[i], datos, now);
      var r := Respuesta(Reemplazar(store, i, u), Some(u), None);
      assert PrimeraCon(store, id, i) && ActualizadaEn(store, r, i, datos, now);
      r
  }

  /** The outcome of updating the request at position `i`: only that request changes. */
  predicate ActualizadaEn(store: Store, r: Respuesta, i: nat, datos: map<Clave, string>, now: Instant)
    requires i < |store|
  {
    && |r.store| == |store|
    && (forall j :: 0 <= j < |store| && j != i ==> r.store[j] == store[j])
    && r.store[i] == AplicarActualizacion(store[i], datos, now)
    && r.solicitud == Some(r.store[i])
  }

  /** Position `i` holds the first request with identifier `id`. */
  predicate PrimeraCon(store: Store, id: string, i: nat)
    ensures PrimeraCon(store, id, i) ==> i < |store|
  {
    i < |store| && store[i].id == id && forall j :: 0 <= j < i ==> store[j].id != id
  }

  /** Through an update, a request in a final state can be put back to
      `pendiente`, and the history does not record it. */
  lemma ActualizarReabreFinal(store: Store, i: nat, now: Instant)
    requires i < |store| && PrimeraCon(store, store[i].id, i)
    requires store[i].estado in ESTADOS_FINALES
    ensures var r := ActualizarSolicitud(store, store[i].id, map[ClaveEstado := PENDIENTE], now);
      && r.store[i].estado == PENDIENTE
      && r.store[i].historial == store[i].historial
  {
    assert Buscar(store, store[i].id) == Some(i);
    assert Leer(AplicarActualizacion(store[i], map[ClaveEstado := PENDIENTE], now), ClaveEstado) == PENDIENTE;
  }

  /** `_cambiar_estado_solicitud`: the first request with that identifier gets
      the state change of `AplicarCambioEstado`; the list keeps its length and
      every other request; the requester is notified. */
  function CambiarEstado(store: Store, id: string, nuevo: string, usuario: string, comentario: string, now: Instant): (r: Respuesta)
    ensures !HasId(store, id) ==> r == Respuesta(store, None, None)
    ensures HasId(store, id) ==> exists i: nat :: PrimeraCon(store, id, i) && CambiadaEn(store, r, i, nuevo, usuario, comentario, now)
  {
    match Buscar(store, id)
    case None => Respuesta(store, None, None)
    case Some(i) =>
      var u := AplicarCambioEstado(store[i], nuevo, usuario, comentario, now);
      var r := Respuesta(Reemplazar(store, i, u), Some(u), Some(AvisoCambioEstado(u, nuevo)));
      assert PrimeraCon(store, id, i) && CambiadaEn(store, r, i, nuevo, usuario, comentario, now);
      r
  }

  /** The outcome of changing the state of the request at position `i`: only that request changes. */
  predicate CambiadaEn(store: Store, r: Respuesta, i: nat, nuevo: string, usuario: string, comentario: string, now: Instant)
    requires i < |store|
  {
    && |r.store| == |store|
    && (forall j :: 0 <= j < |store| && j != i ==> r.store[j] == store[j])
    && r.store[i] == AplicarCambioEstado(store[i], nuevo, usuario, comentario, now)
    && r.solicitud == Some(r.store[i])
    && r.aviso == Some(AvisoCambioEstado(r.store[i], nuevo))
  }

  /** `aprobar_solicitud`. */
  function AprobarSolicitud(store: Store, id: string, aprobador: string, comentario: string, now: Instant): (r: Respuesta)
    ensures r == CambiarEstado(store, id, APROBADO, aprobador, comentario, now)
    ensures r.solicitud.Some? ==> r.solicitud.value.estado == APROBADO
  {
    CambiarEstado(store, id, APROBADO, aprobador, comentario, now)
  }

  /** `rechazar_solicitud`. */
  function RechazarSolicitud(store: Store, id: string, aprobador: string, comentario: string, now: Instant): (r: Respuesta)
    ensures r == CambiarEstado(store, id, RECHAZADO, aprobador, comentario, now)
    ensures r.solicitud.Some? ==> r.solicitud.value.estado == RECHAZADO
  {
    CambiarEstado(store, id, RECHAZADO, aprobador, comentario, now)
  }

  function ConEstado(estado: string): Solicitud -> bool {
    (s: Solicitud) => s.estado == estado
  }

  /** `obtener_estadisticas`: each count is the length of the list of requests
      in that state, and the counts agree with the database aggregation. */
  function ObtenerEstadisticasJson(store: Store): (e: Estadisticas)
    ensures e.total == |store|
    ensures e.pendientes == |Seleccionar(store, ConEstado(PENDIENTE))|
    ensures e.aprobadas == |Seleccionar(store, ConEstado(APROBADO))|
    ensures e.rechazadas == |Seleccionar(store, ConEstado(RECHAZADO))|
    ensures e.enRevision == |Seleccionar(store, ConEstado(EN_REVISION))|
    ensures e.pendientes + e.aprobadas + e.rechazadas + e.enRevision <= e.total
  {
    ContarEsSeleccion(store, PENDIENTE);
    ContarEsSeleccion(store, APROBADO);
    ContarEsSeleccion(store, RECHAZADO);
    ContarEsSeleccion(store, EN_REVISION);
    ObtenerEstadisticas(store)
  }

  /** Counting the requests in a state is the length of the list of them. */
  lemma {:induction false} ContarEsSeleccion(store: Store, estado: string)
    ensures Contar(store, estado) == |Seleccionar(store, ConEstado(estado))|
  {
    if store != [] {
      ContarEsSeleccion(store[1..], estado);
    }
  }

  /** `obtener_solicitudes_por_usuario`: the requests whose `tipo` field equals
      `usuario`, in list order. */
  function ObtenerPorUsuario(store: Store, usuario: string, tipo: Clave): (r: Store)
    ensures forall s :: s in r <==> s in store && Leer(s, tipo) == usuario
    ensures forall s :: multiset(r)[s] == (if Leer(s, tipo) == usuario then multiset(store)[s] else 0)
    ensures |r| <= |store|
  {
    Seleccionar(store, ConCampo(tipo, usuario))
  }

  function ConCampo(tipo: Clave, valor: string): Solicitud -> bool {
    (s: Solicitud) => Leer(s, tipo) == valor
  }

  /** The list keeps file order: a request alone is listed exactly when it
      matches, and the requests of two stretches of the file come out one
      stretch after the other. */
  lemma ObtenerPorUsuarioOrden(a: Store, b: Store, usuario: string, tipo: Clave)
    ensures ObtenerPorUsuario(a + b, usuario, tipo) == ObtenerPorUsuario(a, usuario, tipo) + ObtenerPorUsuario(b, usuario, tipo)
    ensures forall s :: ObtenerPorUsuario([s], usuario, tipo) == (if Leer(s, tipo) == usuario then [s] else [])
  {
    SeleccionarConcat(a, b, ConCampo(tipo, usuario));
    forall s
      ensures ObtenerPorUsuario([s], usuario, tipo) == (if Leer(s, tipo) == usuario then [s] else [])
    {
      SeleccionarUno(s, ConCampo(tipo, usuario));
    }
  }
}
