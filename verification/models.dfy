/** The record shapes of aprobaciones/models.py: a request owns, by
    composition, its history entries and its comments.  Timestamps are
    abstract instants (larger is later).  The module also holds the orderings
    the models declare and the cascade that deletes a request's entries
    together with it. */
module Models {
  import opened Wrappers
  import opened Constants

  /** A point in time; the clock itself is a parameter of every operation. */
  type Instant = int

  /** `HistorialSolicitud`.  `estadoAnterior` is `None` when the entry carries no
      such field at all (the file-backed store's creation entry); a blank field is `Some("")`. */
  datatype Historial = Historial(
    accion: string,
    usuario: string,
    fecha: Instant,
    comentario: string,
    estadoAnterior: Option<string>)

  /** `ComentarioSolicitud`.  `tipo` is free text: the ORM does not enforce its choices. */
  datatype Comentario = Comentario(
    usuario: string,
    comentario: string,
    fecha: Instant,
    tipo: string)

  /** `SolicitudAprobacion`, with its history and comments nested inside it. */
  datatype Solicitud = Solicitud(
    id: string,
    titulo: string,
    descripcion: string,
    solicitante: string,
    responsable: string,
    tipoSolicitud: string,
    estado: string,
    fechaCreacion: Instant,
    fechaActualizacion: Instant,
    historial: seq<Historial>,
    comentarios: seq<Comentario>)

  /** A collection of requests, in storage order. */
  type Store = seq<Solicitud>

  /** The text-valued keys of a request's dictionary form. */
  datatype Clave = ClaveId | ClaveTitulo | ClaveDescripcion | ClaveSolicitante | ClaveResponsable | ClaveTipoSolicitud | ClaveEstado {

    /** The key as it is spelled in the dictionary. */
    function Nombre(): string {
      match this
      case ClaveId => "id"
      case ClaveTitulo => "titulo"
      case ClaveDescripcion => "descripcion"
      case ClaveSolicitante => "solicitante"
      case ClaveResponsable => "responsable"
      case ClaveTipoSolicitud => "tipo_solicitud"
      case ClaveEstado => "estado"
    }
  }

  /** `s[clave]` for a text-valued key. */
  function Leer(s: Solicitud, clave: Clave): string {
    match clave
    case ClaveId => s.id
    case ClaveTitulo => s.titulo
    case ClaveDescripcion => s.descripcion
    case ClaveSolicitante => s.solicitante
    case ClaveResponsable => s.responsable
    case ClaveTipoSolicitud => s.tipoSolicitud
    case ClaveEstado => s.estado
  }

  // --------------------------------------------------------------- defaults

  /** A request as the ORM creates it when no state is given: state `pendiente`,
      both timestamps at `now`, no history and no comments yet. */
  function SolicitudPorDefecto(id: string, titulo: string, descripcion: string, solicitante: string,
                               responsable: string, tipo: string, now: Instant): (s: Solicitud)
    ensures s.estado == PENDIENTE && EstadoFromCode(s.estado) == Some(Pendiente)
    ensures s.fechaCreacion == s.fechaActualizacion == now
    ensures s.historial == [] && s.comentarios == []
    ensures s.id == id && s.titulo == titulo && s.descripcion == descripcion
    ensures s.solicitante == solicitante && s.responsable == responsable && s.tipoSolicitud == tipo
  {
    Solicitud(id, titulo, descripcion, solicitante, responsable, tipo, PENDIENTE, now, now, [], [])
  }

  /** A history entry as the ORM creates it when no previous state is given: the field is blank. */
  function HistorialPorDefecto(accion: string, usuario: string, fecha: Instant, comentario: string): (h: Historial)
    ensures h.estadoAnterior == Some("")
    ensures h.accion == accion && h.usuario == usuario && h.fecha == fecha && h.comentario == comentario
  {
    Historial(accion, usuario, fecha, comentario, Some(""))
  }

  // -------------------------------------------------------------- orderings

  predicate SortedBy<T>(s: seq<T>, key: T -> int) {
    forall i, j :: 0 <= i < j < |s| ==> key(s[i]) <= key(s[j])
  }

  /** The number of leading elements of a sorted list whose key is smaller than `key(x)`. */
  function InsertPos<T>(x: T, s: seq<T>, key: T -> int): (k: nat)
    ensures k <= |s|
    ensures forall i :: 0 <= i < k ==> key(s[i]) < key(x)
    ensures k < |s| ==> key(x) <= key(s[k])
  {
    if s == [] || key(x) <= key(s[0]) then 0 else 1 + InsertPos(x, s[1..], key)
  }

  /** Puts `x` into a sorted list before the first element whose key is not smaller. */
  function Insert<T>(x: T, s: seq<T>, key: T -> int): (r: seq<T>)
    requires SortedBy(s, key)
    ensures SortedBy(r, key)
    ensures multiset(r) == multiset(s) + multiset{x}
    ensures |r| == |s| + 1
  {
    var k := InsertPos(x, s, key);
    InsertAtSorted(x, s, key, k);
    InsertAtMultiset(x, s, k);
    s[..k] + [x] + s[k..]
  }

  lemma InsertAtSorted<T>(x: T, s: seq<T>, key: T -> int, k: nat)
    requires SortedBy(s, key) && k <= |s|
    requires forall i :: 0 <= i < k ==> key(s[i]) < key(x)
    requires k < |s| ==> key(x) <= key(s[k])
    ensures SortedBy(s[..k] + [x] + s[k..], key)
  {
    var r := s[..k] + [x] + s[k..];
    forall i, j | 0 <= i < j < |r| ensures key(r[i]) <= key(r[j]) {
      if j < k {
        assert r[i] == s[i] && r[j] == s[j];
      } else if j == k {
        assert r[i] == s[i] && r[j] == x;
      } else if i < k {
        assert r[i] == s[i] && r[j] == s[j - 1];
      } else if i == k {
        assert r[i] == x && r[j] == s[j - 1];
      } else {
        assert r[i] == s[i - 1] && r[j] == s[j - 1];
      }
    }
  }

  lemma InsertAtMultiset<T>(x: T, s: seq<T>, k: nat)
    requires k <= |s|
    ensures multiset(s[..k] + [x] + s[k..]) == multiset(s) + multiset{x}
    ensures |s[..k] + [x] + s[k..]| == |s| + 1
  {
    assert s == s[..k] + s[k..];
  }

  /** An `order_by` on an integer key: the same elements, ascending by key. */
  function SortBy<T>(s: seq<T>, key: T -> int): (r: seq<T>)
    ensures SortedBy(r, key)
    ensures multiset(r) == multiset(s)
    ensures |r| == |s|
  {
    if s == [] then []
    else
      assert s == [s[0]] + s[1..];
      Insert(s[0], SortBy(s[1..], key), key)
  }

  function FechaHistorial(h: Historial): int { h.fecha }
  function FechaComentario(c: Comentario): int { c.fecha }
  /** The key of `ordering = ['-fecha_creacion']`: newest first. */
  function FechaCreacionDesc(s: Solicitud): int { -s.fechaCreacion }

  /** `historial_ordenado`: the request's history, oldest first. */
  function HistorialOrdenado(s: Solicitud): (r: seq<Historial>)
    ensures multiset(r) == multiset(s.historial)
    ensures forall i, j :: 0 <= i < j < |r| ==> r[i].fecha <= r[j].fecha
  {
    SortBy(s.historial, FechaHistorial)
  }

  /** `comentarios_ordenados`: the request's comments, oldest first. */
  function ComentariosOrdenados(s: Solicitud): (r: seq<Comentario>)
    ensures multiset(r) == multiset(s.comentarios)
    ensures forall i, j :: 0 <= i < j < |r| ==> r[i].fecha <= r[j].fecha
  {
    SortBy(s.comentarios, FechaComentario)
  }

  /** The default listing order of requests: newest creation first. */
  function OrdenPorDefecto(store: Store): (r: Store)
    ensures multiset(r) == multiset(store)
    ensures forall i, j :: 0 <= i < j < |r| ==> r[i].fechaCreacion >= r[j].fechaCreacion
  {
    var r := SortBy(store, FechaCreacionDesc);
    assert forall i, j :: 0 <= i < j < |r| ==> FechaCreacionDesc(r[i]) <= FechaCreacionDesc(r[j]);
    r
  }

  // ------------------------------------------------------------- identity

  predicate HasId(store: Store, id: string) {
    exists i :: 0 <= i < |store| && store[i].id == id
  }

  /** The primary-key invariant of the database table. */
  predicate IdsUnicos(store: Store) {
    forall i, j :: 0 <= i < j < |store| ==> store[i].id != store[j].id
  }

  /** The position of the first request with identifier `id`. */
  function Buscar(store: Store, id: string): (r: Option<nat>)
    ensures r.None? <==> !HasId(store, id)
    ensures r.Some? ==> r.value < |store| && store[r.value].id == id
    ensures r.Some? ==> forall j :: 0 <= j < r.value ==> store[j].id != id
  {
    if store == [] then None
    else if store[0].id == id then Some(0)
    else
      match Buscar(store[1..], id)
      case None => None
      case Some(k) => Some(k + 1)
  }

  /** The first position holding `id` is what `Buscar` finds. */
  lemma {:induction false} BuscarPrimera(store: Store, id: string, i: nat)
    requires i < |store| && store[i].id == id
    requires forall j :: 0 <= j < i ==> store[j].id != id
    ensures Buscar(store, id) == Some(i)
  {
    if i > 0 {
      BuscarPrimera(store[1..], id, i - 1);
    }
  }

  /** Under unique identifiers the first match is the only one. */
  lemma BuscarUnico(store: Store, id: string, i: nat)
    requires IdsUnicos(store)
    requires i < |store| && store[i].id == id
    ensures Buscar(store, id) == Some(i)
  {
  }

  /** `[s for s in store if p(s)]`: the requests satisfying `p`, in storage order. */
  function Seleccionar(store: Store, p: Solicitud -> bool): (r: Store)
    ensures forall s :: s in r <==> s in store && p(s)
    ensures forall s :: multiset(r)[s] == (if p(s) then multiset(store)[s] else 0)
    ensures |r| <= |store|
  {
    if store == [] then []
    else
      var rest := Seleccionar(store[1..], p);
      assert store == [store[0]] + store[1..];
      if p(store[0]) then [store[0]] + rest else rest
  }

  /** Selection keeps storage order: selecting from two stretches of a store is
      selecting from each, one after the other. */
  lemma {:induction false} SeleccionarConcat(a: Store, b: Store, p: Solicitud -> bool)
    ensures Seleccionar(a + b, p) == Seleccionar(a, p) + Seleccionar(b, p)
    decreases |a|
  {
    if a == [] {
      assert a + b == b;
    } else {
      var ab := a + b;
      assert ab[0] == a[0] && ab[1..] == a[1..] + b;
      SeleccionarConcat(a[1..], b, p);
      var rest := Seleccionar(a[1..], p);
      if p(a[0]) {
        calc {
          Seleccionar(ab, p);
          [a[0]] + Seleccionar(a[1..] + b, p);
          [a[0]] + (rest + Seleccionar(b, p));
          ([a[0]] + rest) + Seleccionar(b, p);
        }
      } else {
        assert Seleccionar(ab, p) == Seleccionar(a[1..] + b, p);
      }
    }
  }

  /** One request is selected, alone, exactly when it satisfies the test. */
  lemma SeleccionarUno(s: Solicitud, p: Solicitud -> bool)
    ensures Seleccionar([s], p) == (if p(s) then [s] else [])
  {
    assert [s][1..] == [];
  }

  // --------------------------------------------------------------- cascade

  /** All history entries of all requests. */
  function TotalHistorial(store: Store): nat {
    if store == [] then 0 else |store[0].historial| + TotalHistorial(store[1..])
  }

  /** All comments of all requests. */
  function TotalComentarios(store: Store): nat {
    if store == [] then 0 else |store[0].comentarios| + TotalComentarios(store[1..])
  }

  /** Deleting request `id` (`on_delete=CASCADE`): the request goes, and its
      history and comments go with it, because they live inside it. */
  function Eliminar(store: Store, id: string): (r: Store)
    ensures forall s :: s in r <==> s in store && s.id != id
    ensures !HasId(store, id) ==> r == store
    ensures |r| <= |store|
  {
    if store == [] then []
    else if store[0].id == id then Eliminar(store[1..], id)
    else [store[0]] + Eliminar(store[1..], id)
  }

  /** Under unique identifiers, deleting a present request removes exactly its
      own history entries and comments and no others. */
  lemma {:induction false} EliminarCascada(store: Store, id: string, i: nat)
    requires IdsUnicos(store)
    requires i < |store| && store[i].id == id
    ensures |Eliminar(store, id)| == |store| - 1
    ensures TotalHistorial(Eliminar(store, id)) == TotalHistorial(store) - |store[i].historial|
    ensures TotalComentarios(Eliminar(store, id)) == TotalComentarios(store) - |store[i].comentarios|
  {
    if i == 0 {
      EliminarAusente(store[1..], id);
    } else {
      EliminarCascada(store[1..], id, i - 1);
    }
  }

  lemma {:induction false} EliminarAusente(store: Store, id: string)
    requires forall j :: 0 <= j < |store| ==> store[j].id != id
    ensures Eliminar(store, id) == store
  {
    if store != [] {
      EliminarAusente(store[1..], id);
    }
  }
}
