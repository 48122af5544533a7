/**
 * The language hook: two translation tables, French and English, over
 * the same 13 keys; the page's texts are the table of the current
 * language, which starts as French and toggles between the two.
 */
module Language {

  datatype Lang = Fr | En

  /** The keys both tables define. */
  const Keys: seq<string> := [
    "title", "subtitle", "ticketsTitle", "ticketsDesc", "remoteTitle", "remoteDesc",
    "shopTitle", "shopDesc", "reviewTitle", "reviewDesc", "status", "login", "signup"]

  const French: map<string, string> := map[
    "title" := "Portail Client",
    "subtitle" := "Bienvenue. Gérez vos services et vos tickets de support en un seul endroit.",
    "ticketsTitle" := "Vos Tickets",
    "ticketsDesc" := "Gérer et créer des demandes de support",
    "remoteTitle" := "Contrôle à distance",
    "remoteDesc" := "Télécharger les outils de support",
    "shopTitle" := "Boutique",
    "shopDesc" := "Découvrir nos produits",
    "reviewTitle" := "Laisser un avis",
    "reviewDesc" := "Partagez votre expérience sur Google",
    "status" := "Statut système : Tous les systèmes sont actuellement opérationnels.",
    "login" := "Se connecter",
    "signup" := "S'inscrire"]

  const English: map<string, string> := map[
    "title" := "Client Portal",
    "subtitle" := "Welcome back. Manage your services, support tickets, and devices all in one place.",
    "ticketsTitle" := "Your Tickets",
    "ticketsDesc" := "Manage and create support requests",
    "remoteTitle" := "Remote Control",
    "remoteDesc" := "Download support tools",
    "shopTitle" := "Shop",
    "shopDesc" := "Explore our products",
    "reviewTitle" := "Leave a Review",
    "reviewDesc" := "Share your experience on Google",
    "status" := "System Status: All systems are currently operational.",
    "login" := "Log In",
    "signup" := "Sign Up"]

  /** `translations[lang]`. */
  function Translations(lang: Lang): map<string, string> {
    match lang
    case Fr => French
    case En => English
  }

  /** `lang === 'fr' ? 'en' : 'fr'`. */
  function Toggle(lang: Lang): (r: Lang)
    ensures r != lang
  {
    if lang == Fr then En else Fr
  }

  /** Toggling twice restores the language. */
  lemma ToggleInvolution(lang: Lang)
    ensures Toggle(Toggle(lang)) == lang
  {
  }

  /** Both tables define exactly the same 13 keys, so every text exists in both languages. */
  lemma TablesShareKeys()
    ensures |Keys| == 13
    ensures forall i, j :: 0 <= i < j < |Keys| ==> Keys[i] != Keys[j]
    ensures French.Keys == English.Keys
    ensures forall k :: k in French <==> k in Keys
  {
  }

  class LanguageState {
    var lang: Lang

    constructor()
      ensures lang == Fr
    {
      lang := Fr;
    }

    /** `t`: the table of the current language. */
    function T(): map<string, string>
      reads this
    {
      Translations(lang)
    }

    method ToggleLang()
      modifies this
      ensures lang == Toggle(old(lang))
      ensures T().Keys == old(T()).Keys
    {
      TablesShareKeys();
      lang := Toggle(lang);
    }
  }
}
