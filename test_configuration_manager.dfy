/** The run settings the test form collects: search term, Atlas environment and automation branch. */
module TestConfigurationManager {

  datatype Configuration = Configuration(searchTerm: string, atlasUrl: string, automationBranch: string)

  const DefaultAtlasUrl := "noderprod"
  const DefaultAutomationBranch := "main"

  /** `value || fallback`: an empty string falls back. */
  function OrDefault(value: string, fallback: string): (r: string)
    ensures value != "" ==> r == value
    ensures value == "" ==> r == fallback
  {
    if value == "" then fallback else value
  }

  class TestConfigurationManagerService {
    var searchTerm: string
    var atlasUrl: string
    var automationBranch: string

    constructor()
      ensures searchTerm == "" && atlasUrl == "" && automationBranch == ""
    {
      searchTerm, atlasUrl, automationBranch := "", "", "";
    }

    /** `configuration`: the three current fields. */
    function CurrentConfiguration(): (c: Configuration)
      reads this
      ensures c.searchTerm == searchTerm && c.atlasUrl == atlasUrl && c.automationBranch == automationBranch
    {
      Configuration(searchTerm, atlasUrl, automationBranch)
    }

    method UpdateSearchTerm(value: string)
      modifies this
      ensures searchTerm == value && atlasUrl == old(atlasUrl) && automationBranch == old(automationBranch)
    {
      searchTerm := value;
    }

    method UpdateAtlasUrl(value: string)
      modifies this
      ensures atlasUrl == value && searchTerm == old(searchTerm) && automationBranch == old(automationBranch)
    {
      atlasUrl := value;
    }

    method UpdateAutomationBranch(value: string)
      modifies this
      ensures automationBranch == value && searchTerm == old(searchTerm) && atlasUrl == old(atlasUrl)
    {
      automationBranch := value;
    }

    function AtlasUrlOrDefault(): (r: string)
      reads this
      ensures r != ""
      ensures atlasUrl != "" ==> r == atlasUrl
      ensures atlasUrl == "" ==> r == DefaultAtlasUrl
    {
      OrDefault(atlasUrl, DefaultAtlasUrl)
    }

    function AutomationBranchOrDefault(): (r: string)
      reads this
      ensures r != ""
      ensures automationBranch != "" ==> r == automationBranch
      ensures automationBranch == "" ==> r == DefaultAutomationBranch
    {
      OrDefault(automationBranch, DefaultAutomationBranch)
    }

    method Reset()
      modifies this
      ensures searchTerm == "" && atlasUrl == "" && automationBranch == ""
      ensures AtlasUrlOrDefault() == DefaultAtlasUrl && AutomationBranchOrDefault() == DefaultAutomationBranch
    {
      searchTerm, atlasUrl, automationBranch := "", "", "";
    }
  }
}
