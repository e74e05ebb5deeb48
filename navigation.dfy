/**
 * The session state of the main window and the results screen's back
 * button (`show_results.go_back`): where "back" leads depends on where the
 * listed data came from (`origem_consulta`) and on the signed-in body
 * (`corpo_atual`), read with Python truthiness.
 */
module Navigation {
  import opened Common

  /**
   * The screens `go_back` can lead to, the ones that set an origin, and the
   * queries dashboard (`show_dashboard`) an empty listing falls back to.
   */
  datatype Screen = Login | CorpoDashboard | ItemsList(table: string) | QueriesDashboard | Results

  /** Python truthiness of an optional text: `None` and `''` are false. */
  predicate Truthy(s: Option<string>) {
    s.Some? && s.value != ""
  }

  /** `go_back`'s target, branch by branch. */
  function BackTarget(origem: Option<string>, corpo: Option<string>): Screen {
    if origem == Some("profile") then Login
    else if origem == Some("corpo_dashboard") then CorpoDashboard
    else if Truthy(origem) then ItemsList(origem.value)
    else if Truthy(corpo) then CorpoDashboard
    else Login
  }

  /** Back leads to the login screen exactly for profile data, or when neither an origin nor a body is set. */
  lemma BackToLogin(origem: Option<string>, corpo: Option<string>)
    ensures BackTarget(origem, corpo) == Login <==>
              origem == Some("profile") || (!Truthy(origem) && !Truthy(corpo))
  {
  }

  /** Back leads to a listing exactly when the origin is a non-empty name other than the two markers. */
  lemma BackToList(origem: Option<string>, corpo: Option<string>, t: string)
    ensures BackTarget(origem, corpo) == ItemsList(t) <==>
              origem == Some(t) && t != "" && t != "profile" && t != "corpo_dashboard"
  {
  }

  /** Back leads to the body's dashboard exactly for its own views, or without an origin inside a body. */
  lemma BackToDashboard(origem: Option<string>, corpo: Option<string>)
    ensures BackTarget(origem, corpo) == CorpoDashboard <==>
              origem == Some("corpo_dashboard") || (!Truthy(origem) && Truthy(corpo))
  {
  }

  /** The main window's session fields and the screen on show. */
  class Session {
    var corpoAtual: Option<string>
    var idDirecaoAtual: Option<int>
    var origemConsulta: Option<string>
    var screen: Screen

    /** A new window: nothing set, the login screen. */
    constructor ()
      ensures corpoAtual == None && idDirecaoAtual == None && origemConsulta == None && screen == Login
    {
      corpoAtual := None;
      idDirecaoAtual := None;
      origemConsulta := None;
      screen := Login;
    }

    /** `show_login`: logging out clears the session. */
    method ShowLogin()
      modifies this
      ensures corpoAtual == None && idDirecaoAtual == None && origemConsulta == None && screen == Login
    {
      corpoAtual := None;
      idDirecaoAtual := None;
      origemConsulta := None;
      screen := Login;
    }

    /** A body accepted at sign-in: its name and its board id become the session's. */
    method EnterCorpo(corpo: string, idDirecao: int)
      modifies this
      ensures corpoAtual == Some(corpo) && idDirecaoAtual == Some(idDirecao)
      ensures origemConsulta == old(origemConsulta) && screen == CorpoDashboard
    {
      corpoAtual := Some(corpo);
      idDirecaoAtual := Some(idDirecao);
      screen := CorpoDashboard;
    }

    /** `show_corpo_dashboard`: only the screen changes. */
    method ShowCorpoDashboard()
      modifies this
      ensures screen == CorpoDashboard
      ensures corpoAtual == old(corpoAtual) && idDirecaoAtual == old(idDirecaoAtual)
      ensures origemConsulta == old(origemConsulta)
    {
      screen := CorpoDashboard;
    }

    /**
     * `show_items_list`: the catalogue table becomes the origin before the
     * listing is fetched; when `get_items` brings back no rows (or `None`),
     * the window falls back to `show_dashboard`.
     */
    method ShowItemsList(table: string, hasItems: bool)
      modifies this
      ensures origemConsulta == Some(table)
      ensures screen == if hasItems then ItemsList(table) else QueriesDashboard
      ensures corpoAtual == old(corpoAtual) && idDirecaoAtual == old(idDirecaoAtual)
    {
      origemConsulta := Some(table);
      if hasItems {
        screen := ItemsList(table);
      } else {
        screen := QueriesDashboard;
      }
    }

    /** `_visualizar`: a body's own view; the results are shown when the query returned some. */
    method Visualizar(hasRows: bool)
      modifies this
      ensures origemConsulta == Some("corpo_dashboard")
      ensures screen == if hasRows then Results else old(screen)
      ensures corpoAtual == old(corpoAtual) && idDirecaoAtual == old(idDirecaoAtual)
    {
      origemConsulta := Some("corpo_dashboard");
      if hasRows {
        screen := Results;
      }
    }

    /**
     * `_show_profile_data`: a profile's view; its rows are shown when the
     * query returned some, otherwise the window goes back to `show_login`.
     */
    method ShowProfileData(hasRows: bool)
      modifies this
      ensures hasRows ==> origemConsulta == Some("profile") && screen == Results
      ensures hasRows ==> corpoAtual == old(corpoAtual) && idDirecaoAtual == old(idDirecaoAtual)
      ensures !hasRows ==> corpoAtual == None && idDirecaoAtual == None && origemConsulta == None && screen == Login
    {
      origemConsulta := Some("profile");
      if hasRows {
        screen := Results;
      } else {
        ShowLogin();
      }
    }

    /** Results reached from a listing: the selected entry's data on show. */
    method ShowResults()
      modifies this
      ensures screen == Results
      ensures corpoAtual == old(corpoAtual) && idDirecaoAtual == old(idDirecaoAtual)
      ensures origemConsulta == old(origemConsulta)
    {
      screen := Results;
    }

    /**
     * `go_back`: the screen `BackTarget` names, with that screen's own
     * effect on the session (the login screen clears it, a listing sets
     * itself as the origin again). A listing is fetched anew; `hasItems`
     * says whether it brought rows back, and without them the window ends
     * on the queries dashboard instead.
     */
    method GoBack(hasItems: bool)
      modifies this
      ensures var target := BackTarget(old(origemConsulta), old(corpoAtual));
              screen == if target.ItemsList? && !hasItems then QueriesDashboard else target
      ensures screen == Login ==> corpoAtual == None && idDirecaoAtual == None && origemConsulta == None
      ensures screen != Login ==>
                corpoAtual == old(corpoAtual) && idDirecaoAtual == old(idDirecaoAtual)
                && origemConsulta == old(origemConsulta)
    {
      var target := BackTarget(origemConsulta, corpoAtual);
      match target
      case Login => ShowLogin();
      case CorpoDashboard => ShowCorpoDashboard();
      case ItemsList(t) => ShowItemsList(t, hasItems);
      case QueriesDashboard => assert false;
      case Results => assert false;
    }
  }
}
