/**
 * The home screen's button-enable rule (`HomePage`): each activity of the day
 * whose time window contains the current instant enables the button of its
 * task. Instants are integers (e.g. milliseconds since the epoch); the
 * caller supplies the current one.
 */
module Home {
  import opened Wrappers

  /** One activity of the day as the server lists it. */
  datatype Actividad = Actividad(
    id: int,
    actividad: string,
    fechaInicial: int,
    fechaLimite: int,
    completada: int)

  /** Which task buttons are enabled. */
  datatype Habilitadas = Habilitadas(
    alimentar: bool,
    banar: bool,
    dormir: bool,
    medicina: bool,
    panal: bool)

  /** The five task buttons. */
  datatype Boton = Alimentar | Banar | Dormir | Medicina | Panal

  const NINGUNA: Habilitadas := Habilitadas(false, false, false, false, false)

  const BANAR: string := "Ba\U{F1}ar"
  const CAMBIAR_PANAL: string := "Cambiar pa\U{F1}al"

  /** Whether button `b` is enabled in `h`. */
  function Flag(h: Habilitadas, b: Boton): bool
  {
    match b
    case Alimentar => h.alimentar
    case Banar => h.banar
    case Dormir => h.dormir
    case Medicina => h.medicina
    case Panal => h.panal
  }

  /**
   * The button an activity name enables. "Curar" and "Medicina" share one
   * button; any other name enables none.
   */
  function BotonDe(nombre: string): (r: Option<Boton>)
    ensures r == Some(Alimentar) <==> nombre == "Alimentar"
    ensures r == Some(Banar) <==> nombre == BANAR
    ensures r == Some(Dormir) <==> nombre == "Dormir"
    ensures r == Some(Medicina) <==> nombre == "Curar" || nombre == "Medicina"
    ensures r == Some(Panal) <==> nombre == CAMBIAR_PANAL
  {
    if nombre == "Alimentar" then Some(Alimentar)
    else if nombre == BANAR then Some(Banar)
    else if nombre == "Dormir" then Some(Dormir)
    else if nombre == "Curar" || nombre == "Medicina" then Some(Medicina)
    else if nombre == CAMBIAR_PANAL then Some(Panal)
    else None
  }

  /**
   * The activity is open at `ahora`: its start is inclusive, its deadline
   * exclusive, so only a non-empty window is ever open.
   */
  predicate EnVentana(act: Actividad, ahora: int): (r: bool)
    ensures r ==> act.fechaInicial < act.fechaLimite
    ensures ahora == act.fechaInicial ==> (r <==> act.fechaInicial < act.fechaLimite)
    ensures ahora == act.fechaLimite ==> !r
    ensures act.fechaInicial < act.fechaLimite && ahora == act.fechaLimite - 1 ==> r
  {
    act.fechaInicial <= ahora < act.fechaLimite
  }

  /** Some activity in `acts` is open at `ahora` and enables button `b`. */
  ghost predicate Solicitado(acts: seq<Actividad>, ahora: int, b: Boton)
  {
    exists i :: 0 <= i < |acts| && EnVentana(acts[i], ahora) && BotonDe(acts[i].actividad) == Some(b)
  }

  /** The buttons after processing `acts`: the old ones, or requested by an open activity. */
  ghost function Esperado(h: Habilitadas, acts: seq<Actividad>, ahora: int): (r: Habilitadas)
    ensures forall b :: Flag(r, b) == (Flag(h, b) || Solicitado(acts, ahora, b))
  {
    Habilitadas(
      h.alimentar || Solicitado(acts, ahora, Alimentar),
      h.banar || Solicitado(acts, ahora, Banar),
      h.dormir || Solicitado(acts, ahora, Dormir),
      h.medicina || Solicitado(acts, ahora, Medicina),
      h.panal || Solicitado(acts, ahora, Panal))
  }

  /** Two records that agree on every button are equal. */
  lemma FlagsDetermine(h: Habilitadas, k: Habilitadas)
    requires forall b :: Flag(h, b) == Flag(k, b)
    ensures h == k
  {
    assert Flag(h, Alimentar) == Flag(k, Alimentar);
    assert Flag(h, Banar) == Flag(k, Banar);
    assert Flag(h, Dormir) == Flag(k, Dormir);
    assert Flag(h, Medicina) == Flag(k, Medicina);
    assert Flag(h, Panal) == Flag(k, Panal);
  }

  /**
   * Processing one more activity enables at most the one button its name
   * maps to, and only when it is open; every other button is unchanged.
   */
  lemma {:induction false} EsperadoSnoc(h: Habilitadas, acts: seq<Actividad>, act: Actividad, ahora: int)
    ensures forall b :: Flag(Esperado(h, acts + [act], ahora), b) ==
              (Flag(Esperado(h, acts, ahora), b) || (EnVentana(act, ahora) && BotonDe(act.actividad) == Some(b)))
  {
    var all := acts + [act];
    forall b
      ensures Solicitado(all, ahora, b) ==
                (Solicitado(acts, ahora, b) || (EnVentana(act, ahora) && BotonDe(act.actividad) == Some(b)))
    {
      if Solicitado(acts, ahora, b) {
        var i :| 0 <= i < |acts| && EnVentana(acts[i], ahora) && BotonDe(acts[i].actividad) == Some(b);
        assert all[i] == acts[i];
      }
      if EnVentana(act, ahora) && BotonDe(act.actividad) == Some(b) {
        assert all[|acts|] == act;
      }
      if Solicitado(all, ahora, b) {
        var i :| 0 <= i < |all| && EnVentana(all[i], ahora) && BotonDe(all[i].actividad) == Some(b);
        if i < |acts| {
          assert all[i] == acts[i];
        }
      }
    }
  }

  /** Buttons are only ever enabled: nothing enabled before is disabled after. */
  lemma OnlyEnables(h: Habilitadas, acts: seq<Actividad>, ahora: int, b: Boton)
    requires Flag(h, b)
    ensures Flag(Esperado(h, acts, ahora), b)
  {
  }

  /**
   * A list with no open activity of a known name, in particular the empty
   * list, changes nothing.
   */
  lemma NothingOpenChangesNothing(h: Habilitadas, acts: seq<Actividad>, ahora: int)
    requires forall i :: 0 <= i < |acts| ==> !EnVentana(acts[i], ahora) || BotonDe(acts[i].actividad) == None
    ensures Esperado(h, acts, ahora) == h
  {
    FlagsDetermine(Esperado(h, acts, ahora), h);
  }

  /** The result does not depend on the order of the activities. */
  lemma OrderIndependent(h: Habilitadas, acts: seq<Actividad>, others: seq<Actividad>, ahora: int)
    requires multiset(acts) == multiset(others)
    ensures Esperado(h, acts, ahora) == Esperado(h, others, ahora)
  {
    forall b ensures Solicitado(acts, ahora, b) == Solicitado(others, ahora, b) {
      SolicitadoByMembers(acts, others, ahora, b);
      SolicitadoByMembers(others, acts, ahora, b);
    }
    FlagsDetermine(Esperado(h, acts, ahora), Esperado(h, others, ahora));
  }

  lemma SolicitadoByMembers(acts: seq<Actividad>, others: seq<Actividad>, ahora: int, b: Boton)
    requires multiset(acts) == multiset(others)
    ensures Solicitado(acts, ahora, b) ==> Solicitado(others, ahora, b)
  {
    if Solicitado(acts, ahora, b) {
      var i :| 0 <= i < |acts| && EnVentana(acts[i], ahora) && BotonDe(acts[i].actividad) == Some(b);
      assert acts[i] in multiset(acts);
      assert acts[i] in others;
      var j :| 0 <= j < |others| && others[j] == acts[i];
    }
  }

  class HomePage {
    /** The enabled state of the task buttons; all disabled at first. */
    var actividadesHabilitadas: Habilitadas

    constructor ()
      ensures actividadesHabilitadas == NINGUNA
    {
      actividadesHabilitadas := NINGUNA;
    }

    /**
     * `actualizarBotonesSegunActividades`: every activity open at `ahora`
     * enables the button of its name.
     */
    method ActualizarBotonesSegunActividades(actividades: seq<Actividad>, ahora: int)
      modifies this
      ensures actividadesHabilitadas == Esperado(old(actividadesHabilitadas), actividades, ahora)
    {
      for i := 0 to |actividades|
        invariant actividadesHabilitadas == Esperado(old(actividadesHabilitadas), actividades[..i], ahora)
      {
        var act := actividades[i];
        var inicio := act.fechaInicial;
        var fin := act.fechaLimite;
        var habilitada := ahora >= inicio && ahora < fin;
        if habilitada {
          var nombre := act.actividad;
          if nombre == "Alimentar" {
            actividadesHabilitadas := actividadesHabilitadas.(alimentar := true);
          } else if nombre == BANAR {
            actividadesHabilitadas := actividadesHabilitadas.(banar := true);
          } else if nombre == "Dormir" {
            actividadesHabilitadas := actividadesHabilitadas.(dormir := true);
          } else if nombre == "Curar" || nombre == "Medicina" {
            actividadesHabilitadas := actividadesHabilitadas.(medicina := true);
          } else if nombre == CAMBIAR_PANAL {
            actividadesHabilitadas := actividadesHabilitadas.(panal := true);
          }
        }
        assert actividades[..i + 1] == actividades[..i] + [act];
        EsperadoSnoc(old(actividadesHabilitadas), actividades[..i], act, ahora);
        FlagsDetermine(actividadesHabilitadas, Esperado(old(actividadesHabilitadas), actividades[..i + 1], ahora));
      }
      assert actividades[..|actividades|] == actividades;
    }
  }
}
