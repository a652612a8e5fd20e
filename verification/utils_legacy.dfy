/** The earlier helpers of aprobaciones/utils_bck_24082025.py, kept beside the
    current ones so the two can be compared: a stricter username check, an
    inline colour table, a type-label fallback without underscore replacement,
    and the same notification-template choice. */
module UtilsLegacy {
  import opened Wrappers
  import opened Constants
  import opened Text
  import Utils

  const USUARIO_CARACTERES: string := "Usuario solo puede contener letras y números"

  /** The earlier `validar_usuario_red`: at least three characters, all letters or digits. */
  function ValidarUsuarioRed(usuario: string): (v: Utils.Verdict)
    ensures v.ok <==> |usuario| >= 3 && forall c :: c in usuario ==> IsAlnumChar(c)
    ensures usuario == [] ==> v == Utils.Verdict(false, Utils.USUARIO_VACIO)
    ensures 0 < |usuario| < 3 ==> v == Utils.Verdict(false, Utils.USUARIO_CORTO)
    ensures |usuario| >= 3 && !v.ok ==> v.mensaje == USUARIO_CARACTERES
    ensures v.ok ==> v.mensaje == Utils.USUARIO_VALIDO
  {
    if usuario == [] then Utils.Verdict(false, Utils.USUARIO_VACIO)
    else if |usuario| < 3 then Utils.Verdict(false, Utils.USUARIO_CORTO)
    else if !IsAlnum(usuario) then Utils.Verdict(false, USUARIO_CARACTERES)
    else Utils.Verdict(true, Utils.USUARIO_VALIDO)
  }

  /** Every name the earlier check accepts, the current one accepts too. */
  lemma UsuarioRedRefines(usuario: string)
    ensures ValidarUsuarioRed(usuario).ok ==> Utils.ValidarUsuarioRed(usuario).ok
  {
    if ValidarUsuarioRed(usuario).ok {
      assert usuario[0] in usuario;
    }
  }

  /** The current check is strictly more permissive: dotted names are new. */
  lemma UsuarioRedStrictlyWeaker()
    ensures Utils.ValidarUsuarioRed("j.p").ok
    ensures !ValidarUsuarioRed("j.p").ok
  {
    var u := "j.p";
    assert u == ['j', '.', 'p'];
    assert forall c :: c in u ==> c == 'j' || c == '.' || c == 'p';
    DottedNameSeparates(u, 0, 1);
  }

  /** Any long enough name made of username characters, with a letter or digit
      and a dot, is accepted by the current check and refused by the earlier one. */
  lemma DottedNameSeparates(u: string, i: nat, j: nat)
    requires |u| >= 3 && forall c :: c in u ==> Utils.UsernameChar(c)
    requires i < |u| && IsAlnumChar(u[i])
    requires j < |u| && u[j] == '.'
    ensures Utils.ValidarUsuarioRed(u).ok
    ensures !ValidarUsuarioRed(u).ok
  {
    assert u[i] in u;
    assert u[j] in u && !IsAlnumChar(u[j]);
  }

  /** The earlier `formatear_tipo_solicitud`: the label of a known type, the
      title-cased code (underscores kept) otherwise. */
  function FormatearTipoSolicitud(tipo: string): (r: string)
    ensures tipo in TIPO_CODES ==> r == Utils.FormatearTipoSolicitud(tipo)
    ensures tipo !in TIPO_CODES ==>
      && |r| == |tipo|
      && (forall i :: 0 <= i < |tipo| ==> ToLower(r[i]) == ToLower(tipo[i]))
      && (|r| > 0 && IsAsciiLetter(r[0]) ==> IsAsciiUpper(r[0]))
      && forall i :: 0 < i < |r| && IsAsciiLetter(r[i]) ==>
           (IsAsciiUpper(r[i]) <==> !IsAsciiLetter(r[i - 1]))
  {
    CodeListsMatchTables();
    match LabelOf(TIPOS_SOLICITUD, tipo)
    case Some(display) => display
    case None => Title(tipo)
  }

  /** For an unknown code the two versions differ exactly where the code has an underscore. */
  lemma TipoFallbackDiffers(tipo: string)
    requires tipo !in TIPO_CODES
    ensures FormatearTipoSolicitud(tipo) == Utils.FormatearTipoSolicitud(tipo) <==> '_' !in tipo
  {
    var old_, new_ := FormatearTipoSolicitud(tipo), Utils.FormatearTipoSolicitud(tipo);
    if '_' in tipo {
      var i :| 0 <= i < |tipo| && tipo[i] == '_';
      assert old_[i] == '_';
      assert new_[i] != '_';
    } else {
      assert ReplaceChar(tipo, '_', ' ') == tipo;
    }
  }

  /** The earlier `obtener_color_estado`, with its own inline table. */
  function ObtenerColorEstado(estado: string): (r: string)
    ensures estado in ESTADO_CODES ==> r == COLORES_ESTADO[estado]
    ensures estado !in ESTADO_CODES ==> r == Utils.COLOR_POR_DEFECTO
  {
    var colores := map[
      "pendiente" := "warning",
      "en_revision" := "info",
      "aprobado" := "success",
      "rechazado" := "danger",
      "cancelado" := "secondary"
    ];
    if estado in colores then colores[estado] else "secondary"
  }

  /** Both versions colour every string the same way. */
  lemma ColorVersionsAgree(estado: string)
    ensures ObtenerColorEstado(estado) == Utils.ObtenerColorEstado(estado)
  {
  }

  /** The earlier `crear_mensaje_notificacion` picks among the same three keys
      (only the template texts differ) and falls back to the same text. */
  function CrearMensajeNotificacion(clave: string): (m: Utils.Mensaje)
    ensures m == Utils.CrearMensajeNotificacion(clave)
  {
    var plantillas := map[
      "nueva_solicitud" := Utils.NuevaSolicitud,
      "solicitud_aprobada" := Utils.SolicitudAprobada,
      "solicitud_rechazada" := Utils.SolicitudRechazada
    ];
    if clave in plantillas then Utils.DePlantilla(plantillas[clave]) else Utils.Generico("Actualización en tu solicitud")
  }
}
