/**
 * The company autocomplete component: a query box whose text, once at
 * least two characters long, asks the backend for matching companies and
 * opens a drop-down; picking a company fills the box and reports it.
 */
module CompanyAutocomplete {
  import opened Wrappers

  datatype Company = Company(id: int, name: string)

  /**
   * What `companies` holds. The answer's body is stored whatever its shape:
   * the status is never checked, so an error answer (an object, not a list)
   * is stored as it is.
   */
  datatype Body = CompanyList(items: seq<Company>) | NotAList

  /** The search request: its body, read whatever the status, or a throw. */
  datatype SearchAnswer = Answered(body: Body) | Threw

  class AutocompleteState {
    var query: string
    var companies: Body
    var isOpen: bool
    /** The companies handed to `onSelect`, in order. */
    var selected: seq<Company>

    constructor()
      ensures query == "" && companies == CompanyList([]) && !isOpen && selected == []
    {
      query := "";
      companies := CompanyList([]);
      isOpen := false;
      selected := [];
    }

    /** Typing in the box. */
    method Type(value: string)
      modifies this
      ensures query == value && companies == old(companies) && isOpen == old(isOpen) && selected == old(selected)
    {
      query := value;
    }

    /**
     * The effect that runs when the query changes. A query shorter than two
     * characters empties the list and closes the drop-down without asking
     * the backend. Otherwise an answered request stores its body, list or
     * not, and opens the drop-down; a request that throws empties the list
     * and leaves the drop-down as it is.
     */
    method QueryChanged(answer: SearchAnswer) returns (fetched: bool)
      modifies this
      ensures fetched <==> |old(query)| >= 2
      ensures |old(query)| < 2 ==> companies == CompanyList([]) && !isOpen
      ensures |old(query)| >= 2 && answer.Answered? ==> companies == answer.body && isOpen
      ensures |old(query)| >= 2 && answer.Threw? ==> companies == CompanyList([]) && isOpen == old(isOpen)
      ensures query == old(query) && selected == old(selected)
    {
      if |query| < 2 {
        companies := CompanyList([]);
        isOpen := false;
        return false;
      }
      if answer.Answered? {
        companies := answer.body;
        isOpen := true;
      } else {
        companies := CompanyList([]);
      }
      return true;
    }

    /** `handleSelect`: the box shows the company's name, the drop-down closes and the company is reported. */
    method Select(company: Company)
      modifies this
      ensures query == company.name && !isOpen && selected == old(selected) + [company]
      ensures companies == old(companies)
    {
      query := company.name;
      isOpen := false;
      selected := selected + [company];
    }

    /**
     * A click anywhere in the document. The results element exists only
     * while the drop-down is open; a click outside both it and the box
     * closes the drop-down, any other click changes nothing.
     */
    method Click(inInput: bool, inResults: bool)
      modifies this
      ensures isOpen == (old(isOpen) && (inInput || inResults))
      ensures query == old(query) && companies == old(companies) && selected == old(selected)
    {
      if isOpen && !inInput && !inResults {
        isOpen := false;
      }
    }
  }
}
