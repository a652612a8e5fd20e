/** Validation and presentation helpers of aprobaciones/utils.py: the
    state-transition validator, the network-username validator, description
    cleaning, the colour/icon/type-label lookups and the choice of a
    notification template. */
module Utils {
  import opened Wrappers
  import opened Constants
  import opened Text

  /** The `(accepted, message)` pair the validators return. */
  datatype Verdict = Verdict(ok: bool, mensaje: string)

  // ------------------------------------------------------ network usernames

  const USUARIO_VACIO: string := "Usuario no puede estar vacío"
  const USUARIO_CORTO: string := "Usuario debe tener al menos 3 caracteres"
  const USUARIO_CARACTERES: string := "Usuario solo puede contener letras, números, puntos y guiones bajos"
  const USUARIO_VALIDO: string := "Usuario válido"

  /** A character a network username may hold: a letter, a digit, `.` or `_`. */
  predicate UsernameChar(c: char) {
    IsAlnumChar(c) || c == '.' || c == '_'
  }

  /** `validar_usuario_red`: a name is accepted when it has at least three
      characters, all letters, digits, dots or underscores, and at least one
      of them is a letter or digit.  The checks run in the order empty, short,
      character set, and the message names the first one that fails. */
  function ValidarUsuarioRed(usuario: string): (v: Verdict)
    ensures v.ok <==>
      && |usuario| >= 3
      && (forall c :: c in usuario ==> UsernameChar(c))
      && (exists c :: c in usuario && IsAlnumChar(c))
    ensures usuario == [] ==> v == Verdict(false, USUARIO_VACIO)
    ensures 0 < |usuario| < 3 ==> v == Verdict(false, USUARIO_CORTO)
    ensures |usuario| >= 3 && !v.ok ==> v.mensaje == USUARIO_CARACTERES
    ensures v.ok ==> v.mensaje == USUARIO_VALIDO
  {
    CharsetCheck(usuario);
    if usuario == [] then Verdict(false, USUARIO_VACIO)
    else if |usuario| < 3 then Verdict(false, USUARIO_CORTO)
    else if !IsAlnum(RemoveChar(RemoveChar(usuario, '.'), '_')) then Verdict(false, USUARIO_CARACTERES)
    else Verdict(true, USUARIO_VALIDO)
  }

  /** What the character-set test `replace('.', '').replace('_', '').isalnum()` accepts. */
  lemma CharsetCheck(usuario: string)
    ensures IsAlnum(RemoveChar(RemoveChar(usuario, '.'), '_')) <==>
      && (forall c :: c in usuario ==> UsernameChar(c))
      && (exists c :: c in usuario && IsAlnumChar(c))
  {
    var r := RemoveChar(RemoveChar(usuario, '.'), '_');
    if IsAlnum(r) {
      var c := r[0];
      assert c in r;
      forall x | x in usuario ensures UsernameChar(x) {
        if x != '.' && x != '_' {
          assert x in r;
        }
      }
    }
    if (forall c :: c in usuario ==> UsernameChar(c)) && (exists c :: c in usuario && IsAlnumChar(c)) {
      var c :| c in usuario && IsAlnumChar(c);
      assert c in r;
    }
  }

  // ------------------------------------------------------------ lookups

  /** `formatear_tipo_solicitud`: the label of a known request type; any other
      code is shown with underscores turned into spaces and title-cased. */
  function FormatearTipoSolicitud(tipo: string): (r: string)
    ensures tipo in TIPO_CODES ==> LabelOf(TIPOS_SOLICITUD, tipo) == Some(r)
    ensures tipo !in TIPO_CODES ==>
      && |r| == |tipo|
      && '_' !in r
      && (forall i :: 0 <= i < |tipo| ==> ToLower(r[i]) == ToLower(if tipo[i] == '_' then ' ' else tipo[i]))
      && (|r| > 0 && IsAsciiLetter(r[0]) ==> IsAsciiUpper(r[0]))
      && forall i :: 0 < i < |r| && IsAsciiLetter(r[i]) ==>
           (IsAsciiUpper(r[i]) <==> !IsAsciiLetter(r[i - 1]))
  {
    CodeListsMatchTables();
    match LabelOf(TIPOS_SOLICITUD, tipo)
    case Some(display) => display
    case None => Title(ReplaceChar(tipo, '_', ' '))
  }

  const COLOR_POR_DEFECTO: string := "secondary"
  const ICONO_POR_DEFECTO: string := "fas fa-question-circle"

  /** `obtener_color_estado`: the table colour of a known state, `secondary` otherwise.
      The default coincides with the colour of `cancelado`, so `secondary` does
      not tell a cancelled request from an unknown state. */
  function ObtenerColorEstado(estado: string): (r: string)
    ensures estado in ESTADO_CODES ==> r == COLORES_ESTADO[estado]
    ensures r in COLORES_ESTADO.Values
    ensures r == COLOR_POR_DEFECTO <==> estado == CANCELADO || estado !in ESTADO_CODES
  {
    assert COLORES_ESTADO[CANCELADO] == COLOR_POR_DEFECTO;
    if estado in COLORES_ESTADO then COLORES_ESTADO[estado] else COLOR_POR_DEFECTO
  }

  /** `obtener_icono_estado`: the table icon of a known state, a question mark otherwise.
      Unlike the colour, the default icon is used by no state. */
  function ObtenerIconoEstado(estado: string): (r: string)
    ensures estado in ESTADO_CODES ==> r == ICONOS_ESTADO[estado]
    ensures r == ICONO_POR_DEFECTO <==> estado !in ESTADO_CODES
  {
    if estado in ICONOS_ESTADO then ICONOS_ESTADO[estado] else ICONO_POR_DEFECTO
  }

  // -------------------------------------------------- notification messages

  /** The three message templates of `crear_mensaje_notificacion`. */
  datatype Plantilla = NuevaSolicitud | SolicitudAprobada | SolicitudRechazada {
    function Clave(): string {
      match this
      case NuevaSolicitud => "nueva_solicitud"
      case SolicitudAprobada => "solicitud_aprobada"
      case SolicitudRechazada => "solicitud_rechazada"
    }
  }

  /** A notification body: one of the templates (its text, filled with the
      request's fields, is not modelled) or a fixed fallback text. */
  datatype Mensaje = DePlantilla(plantilla: Plantilla) | Generico(texto: string)

  const MENSAJE_POR_DEFECTO: string := "Actualización en tu solicitud"

  /** `crear_mensaje_notificacion`: the template whose key is `clave`, or the
      fallback text for every other key. */
  function CrearMensajeNotificacion(clave: string): (m: Mensaje)
    ensures m.DePlantilla? ==> m.plantilla.Clave() == clave
    ensures m.Generico? <==> forall p: Plantilla :: p.Clave() != clave
    ensures m.Generico? ==> m.texto == MENSAJE_POR_DEFECTO
  {
    if clave == NuevaSolicitud.Clave() then DePlantilla(NuevaSolicitud)
    else if clave == SolicitudAprobada.Clave() then DePlantilla(SolicitudAprobada)
    else if clave == SolicitudRechazada.Clave() then DePlantilla(SolicitudRechazada)
    else Generico(MENSAJE_POR_DEFECTO)
  }

  // ------------------------------------------------------ state transitions

  /** The business-rule table: the targets allowed from each non-final state. */
  const TRANSICIONES_VALIDAS: map<string, seq<string>> := map[
    PENDIENTE := [EN_REVISION, APROBADO, RECHAZADO, CANCELADO],
    EN_REVISION := [APROBADO, RECHAZADO, PENDIENTE, CANCELADO]
  ]

  const CAMBIO_VALIDO: string := "Cambio de estado válido"

  function MensajeDesdeFinal(actual: string): string {
    "No se puede cambiar el estado desde '" + actual + "'"
  }

  function MensajeEstadoInvalido(nuevo: string): string {
    "Estado '" + nuevo + "' no es válido"
  }

  function MensajeTransicionInvalida(actual: string, nuevo: string): string {
    "No se puede cambiar de '" + actual + "' a '" + nuevo + "'"
  }

  /** The transitions the table allows between known states, written out pair by pair. */
  predicate TablePair(actual: string, nuevo: string) {
    || (actual == PENDIENTE && (nuevo == EN_REVISION || nuevo == APROBADO || nuevo == RECHAZADO || nuevo == CANCELADO))
    || (actual == EN_REVISION && (nuevo == APROBADO || nuevo == RECHAZADO || nuevo == PENDIENTE || nuevo == CANCELADO))
  }

  /** `validar_cambio_estado`.  Nothing leaves a final state; the target must be
      one of the five states; from `pendiente` and `en_revision` only the table's
      targets are allowed.  A current state that is neither final nor in the
      table (a code outside the five) is let through to any valid target. */
  function ValidarCambioEstado(actual: string, nuevo: string): (v: Verdict)
    ensures v.ok <==> TablePair(actual, nuevo) || (actual !in ESTADO_CODES && nuevo in ESTADO_CODES)
    ensures actual in ESTADOS_FINALES ==> v == Verdict(false, MensajeDesdeFinal(actual))
    ensures actual !in ESTADOS_FINALES && nuevo !in ESTADO_CODES ==> v == Verdict(false, MensajeEstadoInvalido(nuevo))
    ensures actual in ESTADOS_MODIFICABLES && nuevo in ESTADO_CODES && !v.ok ==>
      v.mensaje == MensajeTransicionInvalida(actual, nuevo)
    ensures v.ok ==> v.mensaje == CAMBIO_VALIDO
  {
    CodeListsMatchTables();
    if actual in ESTADOS_FINALES then Verdict(false, MensajeDesdeFinal(actual))
    else if nuevo !in Codes(ESTADOS_SOLICITUD) then Verdict(false, MensajeEstadoInvalido(nuevo))
    else if actual in TRANSICIONES_VALIDAS && nuevo !in TRANSICIONES_VALIDAS[actual] then
      Verdict(false, MensajeTransicionInvalida(actual, nuevo))
    else Verdict(true, CAMBIO_VALIDO)
  }

  /** No string, known state or not, may transition to itself. */
  lemma NoSelfTransition(s: string)
    ensures !ValidarCambioEstado(s, s).ok
  {
  }

  /** A final state rejects every target, and a non-final known state accepts
      exactly four targets: the other four states. */
  lemma TransitionsFromKnownStates(actual: string, nuevo: string)
    requires actual in ESTADO_CODES
    ensures actual in ESTADOS_FINALES ==> !ValidarCambioEstado(actual, nuevo).ok
    ensures actual in ESTADOS_MODIFICABLES ==>
      (ValidarCambioEstado(actual, nuevo).ok <==> nuevo in ESTADO_CODES && nuevo != actual)
  {
  }

  // ------------------------------------------------------- description text

  /** `limpiar_descripcion`: empty stays empty; otherwise the text is stripped
      and every run of blanks inside it becomes one space.  The words, and
      their order, are kept. */
  function LimpiarDescripcion(descripcion: string): (r: string)
    ensures descripcion == "" ==> r == ""
    ensures SpacesNormalized(r)
    ensures Words(r) == Words(descripcion)
  {
    if descripcion == "" then ""
    else
      var ws := Words(Strip(descripcion));
      WordsOfStrip(descripcion);
      JoinNormalized(ws);
      WordsOfJoin(ws);
      Join(ws)
  }

  /** Cleaning a cleaned description changes nothing. */
  lemma {:induction false} LimpiarIdempotent(descripcion: string)
    ensures LimpiarDescripcion(LimpiarDescripcion(descripcion)) == LimpiarDescripcion(descripcion)
  {
    var r := LimpiarDescripcion(descripcion);
    if r != "" {
      var ws := Words(Strip(descripcion));
      assert r == Join(ws);
      assert StripLeft(r) == r;
      assert StripRight(r) == r;
      assert Words(r) == ws by { WordsOfJoin(ws); }
    }
  }
}
