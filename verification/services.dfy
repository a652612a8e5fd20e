/** The database-backed `SolicitudStorageService` of aprobaciones/services.py.
    Each call is one atomic step from a collection of requests to a new
    collection, plus what it returns and what it notifies.  Returned requests
    are in their dictionary form (`_solicitud_to_dict`): history and comments
    ordered oldest first.  The store never consults the transition validator. */
module Services {
  import opened Wrappers
  import opened Constants
  import opened Models
  import opened Almacen
  import Utils
  import Forms

  /** `_solicitud_to_dict`: the same request with its history and comments sorted by date. */
  function Vista(s: Solicitud): (v: Solicitud)
    ensures SameRequestData(s, v)
    ensures v.estado == s.estado && v.fechaActualizacion == s.fechaActualizacion
    ensures multiset(v.historial) == multiset(s.historial)
    ensures multiset(v.comentarios) == multiset(s.comentarios)
    ensures forall i, j :: 0 <= i < j < |v.historial| ==> v.historial[i].fecha <= v.historial[j].fecha
    ensures forall i, j :: 0 <= i < j < |v.comentarios| ==> v.comentarios[i].fecha <= v.comentarios[j].fecha
  {
    s.(historial := HistorialOrdenado(s), comentarios := ComentariosOrdenados(s))
  }

  /** Each request of a list in dictionary form, position by position. */
  function Vistas(o: Store): (r: seq<Solicitud>)
    ensures |r| == |o|
    ensures forall i :: 0 <= i < |o| ==> r[i] == Vista(o[i])
    ensures forall v :: v in r <==> exists s :: s in o && v == Vista(s)
  {
    var r := seq(|o|, i requires 0 <= i < |o| => Vista(o[i]));
    assert forall s :: s in o ==> Vista(s) in r by {
      forall s | s in o
        ensures Vista(s) in r
      {
        var k :| 0 <= k < |o| && o[k] == s;
        assert r[k] == Vista(s);
      }
    }
    r
  }

  lemma VistasMembership(o: Store, rs: Store)
    requires multiset(o) == multiset(rs)
    ensures forall v :: v in Vistas(o) <==> exists s :: s in rs && v == Vista(s)
  {
    var r := Vistas(o);
    forall v | v in r
      ensures exists s :: s in rs && v == Vista(s)
    {
      var k :| 0 <= k < |r| && r[k] == v;
      assert o[k] in multiset(o);
    }
    forall s | s in rs
      ensures Vista(s) in r
    {
      assert s in multiset(o);
      var k :| 0 <= k < |o| && o[k] == s;
      assert r[k] == Vista(s);
    }
  }

  /** A list of requests in the default order (newest first), in dictionary form. */
  function Listar(rs: Store): (r: seq<Solicitud>)
    ensures |r| == |rs|
    ensures multiset(r) == multiset(Vistas(rs))
    ensures forall v :: v in r <==> exists s :: s in rs && v == Vista(s)
    ensures forall i, j :: 0 <= i < j < |r| ==> r[i].fechaCreacion >= r[j].fechaCreacion
  {
    var r := OrdenPorDefecto(Vistas(rs));
    assert |r| == |multiset(r)| == |Vistas(rs)|;
    assert forall v :: v in r <==> v in Vistas(rs) by {
      forall v
        ensures v in r <==> v in Vistas(rs)
      {
        assert v in r <==> v in multiset(r);
        assert v in Vistas(rs) <==> v in multiset(Vistas(rs));
      }
    }
    r
  }

  // ---------------------------------------------------------------- create

  const COMENTARIO_CREADA: string := "Solicitud creada"

  /** `crear_solicitud`: a new request in state `pendiente` with exactly one
      history entry (`creada`, by the requester), no comments, and a
      notification to the approver.  The form data is stored as given; the
      service itself checks nothing.  The identifier stands for a fresh UUID. */
  function CrearSolicitud(store: Store, form: Forms.FormData, id: string, now: Instant): (r: Respuesta)
    requires !HasId(store, id)
    ensures |r.store| == |store| + 1 && r.store[..|store|] == store
    ensures var n := r.store[|store|];
      && n.id == id
      && n.titulo == form.titulo && n.descripcion == form.descripcion
      && n.solicitante == form.solicitante && n.responsable == form.responsable
      && n.tipoSolicitud == form.tipoSolicitud
      && n.estado == PENDIENTE
      && n.fechaCreacion == now && n.fechaActualizacion == now
      && n.historial == [Historial("creada", form.solicitante, now, COMENTARIO_CREADA, Some(""))]
      && n.comentarios == []
      && r.solicitud == Some(Vista(n))
      && r.aviso == Some(AvisoNuevaSolicitud(n))
    ensures IdsUnicos(store) ==> IdsUnicos(r.store)
  {
    var base := SolicitudPorDefecto(id, form.titulo, form.descripcion, form.solicitante, form.responsable, form.tipoSolicitud, now);
    var n := base.(historial := [HistorialPorDefecto("creada", form.solicitante, now, COMENTARIO_CREADA)]);
    assert (store + [n])[..|store|] == store;
    Respuesta(store + [n], Some(Vista(n)), Some(AvisoNuevaSolicitud(n)))
  }

  // ----------------------------------------------------------------- read

  /** `obtener_todas_solicitudes`. */
  function ObtenerTodas(store: Store): (r: seq<Solicitud>)
    ensures |r| == |store|
    ensures multiset(r) == multiset(Vistas(store))
    ensures forall v :: v in r <==> exists s :: s in store && v == Vista(s)
    ensures forall i, j :: 0 <= i < j < |r| ==> r[i].fechaCreacion >= r[j].fechaCreacion
  {
    Listar(store)
  }

  /** `obtener_solicitud_por_id`: the request with that identifier, or `None`. */
  function ObtenerPorId(store: Store, id: string): (r: Option<Solicitud>)
    ensures r.None? <==> !HasId(store, id)
    ensures r.Some? ==> exists i :: 0 <= i < |store| && store[i].id == id && r.value == Vista(store[i])
  {
    match Buscar(store, id)
    case None => None
    case Some(i) => Some(Vista(store[i]))
  }

  // ---------------------------------------------------------------- update

  const COMENTARIO_ACTUALIZADA: string := "Solicitud actualizada"

  /** The keys `actualizar_solicitud` applies. */
  predicate Actualizable(k: Clave) {
    k == ClaveTitulo || k == ClaveDescripcion || k == ClaveTipoSolicitud
  }

  /** The body of `actualizar_solicitud` on the found request. */
  function AplicarActualizacion(s: Solicitud, datos: map<Clave, string>, usuario: Option<string>, now: Instant): (u: Solicitud)
    ensures forall k: Clave :: Leer(u, k) == (if k in datos && Actualizable(k) then datos[k] else Leer(s, k))
    ensures u.fechaCreacion == s.fechaCreacion && u.fechaActualizacion == now
    ensures u.comentarios == s.comentarios
    ensures |u.historial| == |s.historial| + 1
    ensures u.historial[..|s.historial|] == s.historial
    ensures u.historial[|s.historial|] == Historial("actualizada", usuario.GetOr(s.solicitante), now, COMENTARIO_ACTUALIZADA, Some(""))
  {
    var h := s.historial + [HistorialPorDefecto("actualizada", usuario.GetOr(s.solicitante), now, COMENTARIO_ACTUALIZADA)];
    assert h[..|s.historial|] == s.historial;
    s.(
      titulo := if ClaveTitulo in datos then datos[ClaveTitulo] else s.titulo,
      descripcion := if ClaveDescripcion in datos then datos[ClaveDescripcion] else s.descripcion,
      tipoSolicitud := if ClaveTipoSolicitud in datos then datos[ClaveTipoSolicitud] else s.tipoSolicitud,
      fechaActualizacion := now,
      historial := h)
  }

  /** `actualizar_solicitud`.  Of the supplied values only `titulo`,
      `descripcion` and `tipo_solicitud` are applied; state, requester,
      approver and identifier stay.  One `actualizada` history entry is
      appended, by `usuario_actualizacion` or else by the requester.  An
      unknown identifier leaves the collection as it was. */
  function ActualizarSolicitud(store: Store, id: string, datos: map<Clave, string>, usuarioActualizacion: Option<string>, now: Instant): (r: Respuesta)
    ensures r.aviso == None
    ensures !HasId(store, id) ==> r == Respuesta(store, None, None)
    ensures HasId(store, id) ==>
      exists i :: 0 <= i < |store| && store[i].id == id && ActualizadaEn(store, r, i, datos, usuarioActualizacion, now)
  {
    match Buscar(store, id)
    case None => Respuesta(store, None, None)
    case Some(i) =>
      var u := AplicarActualizacion(store[i], datos, usuarioActualizacion, now);
      Respuesta(Reemplazar(store, i, u), Some(Vista(u)), None)
  }

  /** The outcome of updating the request at position `i`: only that request changes. */
  predicate ActualizadaEn(store: Store, r: Respuesta, i: nat, datos: map<Clave, string>, usuario: Option<string>, now: Instant)
    requires i < |store|
  {
    && |r.store| == |store|
    && (forall j :: 0 <= j < |store| && j != i ==> r.store[j] == store[j])
    && r.store[i] == AplicarActualizacion(store[i], datos, usuario, now)
    && r.solicitud == Some(Vista(r.store[i]))
  }

  // ---------------------------------------------------------- state change

  /** `_cambiar_estado_solicitud`: the state is overwritten with whatever
      `nuevo` is, with no transition check; see `AplicarCambioEstado` for the
      history and comment effects.  The requester is notified.  An unknown
      identifier leaves the collection as it was and notifies no one. */
  function CambiarEstado(store: Store, id: string, nuevo: string, usuario: string, comentario: string, now: Instant): (r: Respuesta)
    ensures !HasId(store, id) ==> r == Respuesta(store, None, None)
    ensures HasId(store, id) ==>
      exists i :: 0 <= i < |store| && store[i].id == id && CambiadaEn(store, r, i, nuevo, usuario, comentario, now)
  {
    match Buscar(store, id)
    case None => Respuesta(store, None, None)
    case Some(i) =>
      var u := AplicarCambioEstado(store[i], nuevo, usuario, comentario, now);
      Respuesta(Reemplazar(store, i, u), Some(Vista(u)), Some(AvisoCambioEstado(u, nuevo)))
  }

  /** The outcome of changing the state of the request at position `i`. */
  predicate CambiadaEn(store: Store, r: Respuesta, i: nat, nuevo: string, usuario: string, comentario: string, now: Instant)
    requires i < |store|
  {
    && |r.store| == |store|
    && (forall j :: 0 <= j < |store| && j != i ==> r.store[j] == store[j])
    && r.store[i] == AplicarCambioEstado(store[i], nuevo, usuario, comentario, now)
    && r.solicitud == Some(Vista(r.store[i]))
    && r.aviso == Some(AvisoCambioEstado(r.store[i], nuevo))
  }

  /** `aprobar_solicitud`: a state change to `aprobado`. */
  function AprobarSolicitud(store: Store, id: string, aprobador: string, comentario: string, now: Instant): (r: Respuesta)
    ensures r == CambiarEstado(store, id, APROBADO, aprobador, comentario, now)
    ensures r.solicitud.Some? ==> r.solicitud.value.estado == APROBADO
    ensures r.aviso.Some? ==> r.aviso.value.mensaje == Utils.DePlantilla(Utils.SolicitudAprobada)
  {
    CambiarEstado(store, id, APROBADO, aprobador, comentario, now)
  }

  /** `rechazar_solicitud`: a state change to `rechazado`. */
  function RechazarSolicitud(store: Store, id: string, aprobador: string, comentario: string, now: Instant): (r: Respuesta)
    ensures r == CambiarEstado(store, id, RECHAZADO, aprobador, comentario, now)
    ensures r.solicitud.Some? ==> r.solicitud.value.estado == RECHAZADO
    ensures r.aviso.Some? ==> r.aviso.value.mensaje == Utils.DePlantilla(Utils.SolicitudRechazada)
  {
    CambiarEstado(store, id, RECHAZADO, aprobador, comentario, now)
  }

  /** The service moves a request out of a final state without complaint:
      nothing in the store consults `validar_cambio_estado`. */
  lemma CambiarEstadoIgnoresFinalStates(store: Store, i: nat, nuevo: string, usuario: string, comentario: string, now: Instant)
    requires i < |store| && IdsUnicos(store)
    ensures var r := CambiarEstado(store, store[i].id, nuevo, usuario, comentario, now);
      r.store[i].estado == nuevo && Last(r.store[i].historial).estadoAnterior == Some(store[i].estado)
  {
    BuscarUnico(store, store[i].id, i);
  }

  // --------------------------------------------------------------- queries

  /** `obtener_estadisticas`. */
  function ObtenerEstadisticasDb(store: Store): (e: Estadisticas)
    ensures e.total == |ObtenerTodas(store)|
    ensures e.pendientes == Contar(store, PENDIENTE) && e.aprobadas == Contar(store, APROBADO)
    ensures e.rechazadas == Contar(store, RECHAZADO) && e.enRevision == Contar(store, EN_REVISION)
    ensures e.pendientes <= e.total && e.aprobadas <= e.total && e.rechazadas <= e.total && e.enRevision <= e.total
    ensures e.pendientes + e.aprobadas + e.rechazadas + e.enRevision + Contar(store, CANCELADO) + ContarOtros(store) == e.total
  {
    ObtenerEstadisticas(store)
  }

  predicate DeUsuario(s: Solicitud, usuario: string, tipo: string) {
    if tipo == "solicitante" then s.solicitante == usuario else s.responsable == usuario
  }

  /** The requests of `usuario` in the sense of `tipo`, each as often as it is stored. */
  function DelUsuario(store: Store, usuario: string, tipo: string): (r: Store)
    ensures forall s :: multiset(r)[s] == (if DeUsuario(s, usuario, tipo) then multiset(store)[s] else 0)
  {
    Seleccionar(store, s => DeUsuario(s, usuario, tipo))
  }

  /** `obtener_solicitudes_por_usuario`: the requests made by `usuario` when
      `tipo` is `solicitante`, and those it must approve for any other `tipo`;
      newest first. */
  function ObtenerPorUsuario(store: Store, usuario: string, tipo: string): (r: seq<Solicitud>)
    ensures multiset(r) == multiset(Vistas(DelUsuario(store, usuario, tipo)))
    ensures forall v :: v in r <==> exists s :: s in store && v == Vista(s) && DeUsuario(s, usuario, tipo)
    ensures forall i, j :: 0 <= i < j < |r| ==> r[i].fechaCreacion >= r[j].fechaCreacion
  {
    var sel := DelUsuario(store, usuario, tipo);
    assert forall s :: s in sel <==> s in store && DeUsuario(s, usuario, tipo) by {
      forall s
        ensures s in sel <==> s in store && DeUsuario(s, usuario, tipo)
      {
        assert s in sel <==> multiset(sel)[s] > 0;
      }
    }
    Listar(sel)
  }

  /** A filter argument is in effect when it is given and non-empty. */
  predicate Activo(f: Option<string>) {
    f.Some? && f.value != ""
  }

  predicate Coincide(s: Solicitud, estado: Option<string>, tipo: Option<string>, solicitante: Option<string>, responsable: Option<string>) {
    && (Activo(estado) ==> s.estado == estado.value)
    && (Activo(tipo) ==> s.tipoSolicitud == tipo.value)
    && (Activo(solicitante) ==> s.solicitante == solicitante.value)
    && (Activo(responsable) ==> s.responsable == responsable.value)
  }

  function Seleccion(store: Store, estado: Option<string>, tipo: Option<string>, solicitante: Option<string>, responsable: Option<string>): (r: Store)
    ensures forall s :: s in r <==> s in store && Coincide(s, estado, tipo, solicitante, responsable)
    ensures forall s :: multiset(r)[s] == (if Coincide(s, estado, tipo, solicitante, responsable) then multiset(store)[s] else 0)
  {
    Seleccionar(store, s => Coincide(s, estado, tipo, solicitante, responsable))
  }

  /** `filtrar_solicitudes`: the requests meeting every filter in effect, newest first. */
  function Filtrar(store: Store, estado: Option<string>, tipo: Option<string>, solicitante: Option<string>, responsable: Option<string>): (r: seq<Solicitud>)
    ensures multiset(r) == multiset(Vistas(Seleccion(store, estado, tipo, solicitante, responsable)))
    ensures forall v :: v in r <==> exists s :: s in store && v == Vista(s) && Coincide(s, estado, tipo, solicitante, responsable)
    ensures forall i, j :: 0 <= i < j < |r| ==> r[i].fechaCreacion >= r[j].fechaCreacion
  {
    Listar(Seleccion(store, estado, tipo, solicitante, responsable))
  }

  /** With no filter in effect, filtering lists every request. */
  lemma {:induction false} FiltrarSinFiltros(store: Store, estado: Option<string>, tipo: Option<string>, solicitante: Option<string>, responsable: Option<string>)
    requires !Activo(estado) && !Activo(tipo) && !Activo(solicitante) && !Activo(responsable)
    ensures Filtrar(store, estado, tipo, solicitante, responsable) == ObtenerTodas(store)
  {
    SeleccionTodo(store, estado, tipo, solicitante, responsable);
  }

  lemma SeleccionTodo(store: Store, estado: Option<string>, tipo: Option<string>, solicitante: Option<string>, responsable: Option<string>)
    requires !Activo(estado) && !Activo(tipo) && !Activo(solicitante) && !Activo(responsable)
    ensures Seleccion(store, estado, tipo, solicitante, responsable) == store
  {
    SeleccionarTodo(store, s => Coincide(s, estado, tipo, solicitante, responsable));
  }

  lemma {:induction false} SeleccionarTodo(store: Store, p: Solicitud -> bool)
    requires forall s :: p(s)
    ensures Seleccionar(store, p) == store
  {
    if store != [] {
      SeleccionarTodo(store[1..], p);
      assert store == [store[0]] + store[1..];
    }
  }
}
