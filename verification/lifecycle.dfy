/** Sequences of calls on the database-backed store, and the audit-trail
    guarantees that hold across them: history is append-only and grows by
    exactly one entry per update or state change of its request.

    The module also defines `CambiarEstadoValidado`, a state change guarded by
    `validar_cambio_estado`.  The service does not do this (see
    `Services.CambiarEstadoIgnoresFinalStates`); the guarded version is here to
    show what the validator would guarantee if it were called: final states
    are absorbing. */
module CicloDeVida {
  import opened Wrappers
  import opened Constants
  import opened Models
  import opened Almacen
  import opened Services
  import Utils
  import Forms

  /** One mutating call on the store. */
  datatype Operacion =
    | Edicion(id: string, datos: map<Clave, string>, usuario: Option<string>, now: Instant)
    | Transicion(id: string, nuevo: string, autor: string, comentario: string, now: Instant)

  function Paso(store: Store, op: Operacion): Store {
    match op
    case Edicion(id, datos, usuario, now) => ActualizarSolicitud(store, id, datos, usuario, now).store
    case Transicion(id, nuevo, autor, comentario, now) => CambiarEstado(store, id, nuevo, autor, comentario, now).store
  }

  function Ejecutar(store: Store, ops: seq<Operacion>): Store
    decreases |ops|
  {
    if ops == [] then store else Ejecutar(Paso(store, ops[0]), ops[1..])
  }

  /** How many of `ops` address request `id`. */
  function Dirigidas(ops: seq<Operacion>, id: string): nat {
    if ops == [] then 0 else (if ops[0].id == id then 1 else 0) + Dirigidas(ops[1..], id)
  }

  predicate EsPrefijo(a: seq<Historial>, b: seq<Historial>) {
    |a| <= |b| && b[..|a|] == a
  }

  /** Replacing one request by a record with the same identifier keeps every
      identifier in place and unique, and leaves every other request as it was. */
  lemma ReemplazoPuntual(store: Store, i: nat, u: Solicitud)
    requires i < |store| && u.id == store[i].id
    requires IdsUnicos(store)
    ensures var s' := Reemplazar(store, i, u);
      && (forall k :: 0 <= k < |store| && k != i ==> s'[k] == store[k])
      && (forall k :: 0 <= k < |store| ==> s'[k].id == store[k].id)
      && IdsUnicos(s')
  {
    var s' := Reemplazar(store, i, u);
    forall a, b | 0 <= a < b < |s'| ensures s'[a].id != s'[b].id {
      assert s'[a].id == store[a].id && s'[b].id == store[b].id;
    }
  }

  /** The effect of one call on the request at position `j`. */
  lemma PasoEfecto(store: Store, op: Operacion, j: nat)
    requires IdsUnicos(store) && j < |store|
    ensures var s' := Paso(store, op);
      && |s'| == |store|
      && (forall k :: 0 <= k < |store| ==> s'[k].id == store[k].id)
      && IdsUnicos(s')
      && EsPrefijo(store[j].historial, s'[j].historial)
      && |s'[j].historial| == |store[j].historial| + (if op.id == store[j].id then 1 else 0)
  {
    match Buscar(store, op.id)
    case None =>
    case Some(i) =>
      match op {
        case Edicion(id, datos, usuario, now) =>
          var u := AplicarActualizacion(store[i], datos, usuario, now);
          assert Leer(u, ClaveId) == Leer(store[i], ClaveId);
          assert Paso(store, op) == Reemplazar(store, i, u);
          ReemplazoEfecto(store, i, u, j);
        case Transicion(id, nuevo, autor, comentario, now) =>
          var u := AplicarCambioEstado(store[i], nuevo, autor, comentario, now);
          assert Paso(store, op) == Reemplazar(store, i, u);
          ReemplazoEfecto(store, i, u, j);
      }
      if j != i {
        assert store[j].id != op.id;
      }
  }

  /** Replacing the request at `i` by one with the same identifier and one more
      history entry: positions and identifiers stay, identifiers stay unique,
      and only position `i` gains a history entry. */
  lemma ReemplazoEfecto(store: Store, i: nat, u: Solicitud, j: nat)
    requires i < |store| && j < |store| && IdsUnicos(store) && u.id == store[i].id
    requires |u.historial| == |store[i].historial| + 1 && u.historial[..|store[i].historial|] == store[i].historial
    ensures var s' := Reemplazar(store, i, u);
      && |s'| == |store|
      && (forall k :: 0 <= k < |store| ==> s'[k].id == store[k].id)
      && IdsUnicos(s')
      && EsPrefijo(store[j].historial, s'[j].historial)
      && |s'[j].historial| == |store[j].historial| + (if i == j then 1 else 0)
  {
    ReemplazoPuntual(store, i, u);
  }

  /** Across any sequence of updates and state changes, each request keeps its
      position and identifier, its earlier history is never rewritten, and its
      history grows by exactly one entry per call addressed to it. */
  lemma {:induction false} HistorialUnaEntradaPorOperacion(store: Store, ops: seq<Operacion>, j: nat)
    requires IdsUnicos(store) && j < |store|
    ensures var s' := Ejecutar(store, ops);
      && |s'| == |store|
      && IdsUnicos(s')
      && s'[j].id == store[j].id
      && EsPrefijo(store[j].historial, s'[j].historial)
      && |s'[j].historial| == |store[j].historial| + Dirigidas(ops, store[j].id)
    decreases |ops|
  {
    if ops != [] {
      var mid := Paso(store, ops[0]);
      PasoEfecto(store, ops[0], j);
      HistorialUnaEntradaPorOperacion(mid, ops[1..], j);
      var s' := Ejecutar(mid, ops[1..]);
      assert s'[j].historial[..|mid[j].historial|] == mid[j].historial;
      assert mid[j].historial[..|store[j].historial|] == store[j].historial;
    }
  }

  /** A request just created and then touched by `ops` has one history entry
      for its creation plus one per call addressed to it. */
  lemma HistorialTrasCreacion(store: Store, form: Forms.FormData, id: string, now: Instant, ops: seq<Operacion>)
    requires IdsUnicos(store) && !HasId(store, id)
    ensures var s0 := CrearSolicitud(store, form, id, now).store;
      && |Ejecutar(s0, ops)| == |store| + 1
      && |Ejecutar(s0, ops)[|store|].historial| == 1 + Dirigidas(ops, id)
      && Ejecutar(s0, ops)[|store|].historial[0].accion == "creada"
  {
    var s0 := CrearSolicitud(store, form, id, now).store;
    HistorialUnaEntradaPorOperacion(s0, ops, |store|);
    var s' := Ejecutar(s0, ops);
    assert s'[|store|].historial[..1] == s0[|store|].historial;
    assert s'[|store|].historial[0] == s'[|store|].historial[..1][0];
  }

  // ---------------------------------------------------- guarded transitions

  datatype ErrorTransicion = NoEncontrada | Invalida(mensaje: string)

  /** A state change that first asks `validar_cambio_estado` and refuses,
      changing nothing, when the validator does. */
  function CambiarEstadoValidado(store: Store, id: string, nuevo: string, usuario: string, comentario: string, now: Instant): (r: Result<Respuesta, ErrorTransicion>)
    ensures !HasId(store, id) ==> r == Err(NoEncontrada)
    ensures HasId(store, id) ==>
      var actual := store[Buscar(store, id).value].estado;
      && (r.Ok? <==> Utils.ValidarCambioEstado(actual, nuevo).ok)
      && (r.Ok? ==> r.value == CambiarEstado(store, id, nuevo, usuario, comentario, now))
      && (r.Err? ==> r.error == Invalida(Utils.ValidarCambioEstado(actual, nuevo).mensaje))
  {
    match Buscar(store, id)
    case None => Err(NoEncontrada)
    case Some(i) =>
      var v := Utils.ValidarCambioEstado(store[i].estado, nuevo);
      if v.ok then Ok(CambiarEstado(store, id, nuevo, usuario, comentario, now)) else Err(Invalida(v.mensaje))
  }

  function PasoValidado(store: Store, op: Operacion): Store {
    match op
    case Edicion(id, datos, usuario, now) => ActualizarSolicitud(store, id, datos, usuario, now).store
    case Transicion(id, nuevo, autor, comentario, now) =>
      match CambiarEstadoValidado(store, id, nuevo, autor, comentario, now)
      case Ok(r) => r.store
      case Err(_) => store
  }

  function EjecutarValidadas(store: Store, ops: seq<Operacion>): Store
    decreases |ops|
  {
    if ops == [] then store else EjecutarValidadas(PasoValidado(store, ops[0]), ops[1..])
  }

  /** One guarded call never changes the state of a request in a final state. */
  lemma PasoValidadoEfecto(store: Store, op: Operacion, j: nat)
    requires IdsUnicos(store) && j < |store|
    requires store[j].estado in ESTADOS_FINALES
    ensures var s' := PasoValidado(store, op);
      && |s'| == |store|
      && IdsUnicos(s')
      && s'[j].id == store[j].id
      && s'[j].estado == store[j].estado
  {
    match op
    case Edicion(id, datos, usuario, now) => EdicionEfecto(store, id, datos, usuario, now, j);
    case Transicion(id, nuevo, autor, comentario, now) => TransicionValidadaEfecto(store, id, nuevo, autor, comentario, now, j);
  }

  /** An update keeps positions, identifiers and every state. */
  lemma EdicionEfecto(store: Store, id: string, datos: map<Clave, string>, usuario: Option<string>, now: Instant, j: nat)
    requires IdsUnicos(store) && j < |store|
    ensures var s' := ActualizarSolicitud(store, id, datos, usuario, now).store;
      && |s'| == |store|
      && IdsUnicos(s')
      && s'[j].id == store[j].id
      && s'[j].estado == store[j].estado
  {
    match Buscar(store, id)
    case None =>
    case Some(i) =>
      var u := AplicarActualizacion(store[i], datos, usuario, now);
      ActualizacionConserva(store[i], datos, usuario, now);
      assert ActualizarSolicitud(store, id, datos, usuario, now).store == Reemplazar(store, i, u);
      ReemplazoPuntual(store, i, u);
  }

  /** An update never touches the identifier or the state. */
  lemma ActualizacionConserva(s: Solicitud, datos: map<Clave, string>, usuario: Option<string>, now: Instant)
    ensures AplicarActualizacion(s, datos, usuario, now).id == s.id
    ensures AplicarActualizacion(s, datos, usuario, now).estado == s.estado
  {
    var u := AplicarActualizacion(s, datos, usuario, now);
    assert Leer(u, ClaveId) == Leer(s, ClaveId);
    assert Leer(u, ClaveEstado) == Leer(s, ClaveEstado);
  }

  /** A guarded state change keeps positions and identifiers, and leaves a
      request in a final state as it was. */
  lemma TransicionValidadaEfecto(store: Store, id: string, nuevo: string, autor: string, comentario: string, now: Instant, j: nat)
    requires IdsUnicos(store) && j < |store|
    requires store[j].estado in ESTADOS_FINALES
    ensures var s' := PasoValidado(store, Transicion(id, nuevo, autor, comentario, now));
      && |s'| == |store|
      && IdsUnicos(s')
      && s'[j].id == store[j].id
      && s'[j].estado == store[j].estado
  {
    match Buscar(store, id)
    case None =>
    case Some(i) =>
      if Utils.ValidarCambioEstado(store[i].estado, nuevo).ok {
        var u := AplicarCambioEstado(store[i], nuevo, autor, comentario, now);
        assert i != j;
        ReemplazoPuntual(store, i, u);
      }
  }

  /** With every state change guarded, a final state is absorbing: no sequence
      of updates and state changes moves a request out of it. */
  lemma {:induction false} FinalesAbsorbentes(store: Store, ops: seq<Operacion>, j: nat)
    requires IdsUnicos(store) && j < |store|
    requires store[j].estado in ESTADOS_FINALES
    ensures var s' := EjecutarValidadas(store, ops);
      && |s'| == |store|
      && IdsUnicos(s')
      && s'[j].id == store[j].id
      && s'[j].estado == store[j].estado
    decreases |ops|
  {
    if ops != [] {
      PasoValidadoEfecto(store, ops[0], j);
      FinalesAbsorbentes(PasoValidado(store, ops[0]), ops[1..], j);
    }
  }

  /** Once approved through the guard, every further guarded state change of
      that request is refused and changes nothing. */
  lemma SegundaTransicionFalla(store: Store, id: string, autor: string, comentario: string, now: Instant,
                               nuevo: string, autor2: string, comentario2: string, now2: Instant)
    requires IdsUnicos(store)
    requires CambiarEstadoValidado(store, id, APROBADO, autor, comentario, now).Ok?
    ensures var s1 := CambiarEstadoValidado(store, id, APROBADO, autor, comentario, now).value.store;
      CambiarEstadoValidado(s1, id, nuevo, autor2, comentario2, now2).Err?
  {
    var i := Buscar(store, id).value;
    var u := AplicarCambioEstado(store[i], APROBADO, autor, comentario, now);
    var s1 := Reemplazar(store, i, u);
    assert CambiarEstadoValidado(store, id, APROBADO, autor, comentario, now).value.store == s1;
    ReemplazoPuntual(store, i, u);
    BuscarUnico(s1, id, i);
    assert !Utils.ValidarCambioEstado(s1[i].estado, nuevo).ok;
  }
}
