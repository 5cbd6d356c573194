/** The pricing page (src/pages/Pricing.tsx): the constant table of three plans and the
    decision a plan button takes for a visitor, a job seeker or an employer. */
module Pricing {
  import opened Wrappers
  import opened Types

  datatype Plan = Plan(name: string, price: nat, duration: string, description: string,
                       features: seq<string>, buttonText: string, popular: bool)

  const BasicDescription := "Everything you need to get started"
  const ProDescription := "Perfect for growing businesses"
  const EnterpriseDescription := "For larger organizations with advanced needs"

  function BasicFeatures(): seq<string> {
    ["Post 1 job at a time", "Basic company profile", "7-day job listings", "Email support"]
  }

  function ProFeatures(): seq<string> {
    ["Post 5 jobs at a time", "Enhanced company profile", "30-day job listings",
     "Priority email support", "Resume database access (limited)", "Basic analytics"]
  }

  function EnterpriseFeatures(): seq<string> {
    ["Unlimited job postings", "Premium company profile", "60-day job listings",
     "Dedicated account manager", "Unlimited resume database access",
     "Advanced analytics and reporting", "Featured job listings", "API access"]
  }

  /** `pricingPlans`. */
  function PricingPlans(): seq<Plan> {
    [ Plan("Basic", 0, "Free", BasicDescription, BasicFeatures(), "Get Started", false),
      Plan("Pro", 99, "per month", ProDescription, ProFeatures(), "Subscribe to Pro", true),
      Plan("Enterprise", 299, "per month", EnterpriseDescription, EnterpriseFeatures(), "Contact Sales", false) ]
  }

  /** The table: Basic is free, Pro costs 99 and Enterprise 299 a month, prices rise down the
      table, the names are distinct, and Pro is the one plan marked popular. */
  lemma PlanTable()
    ensures |PricingPlans()| == 3
    ensures PricingPlans()[0].name == "Basic" && PricingPlans()[0].price == 0
    ensures PricingPlans()[1].name == "Pro" && PricingPlans()[1].price == 99
    ensures PricingPlans()[2].name == "Enterprise" && PricingPlans()[2].price == 299
    ensures forall i, j :: 0 <= i < j < |PricingPlans()| ==>
      PricingPlans()[i].price < PricingPlans()[j].price && PricingPlans()[i].name != PricingPlans()[j].name
    ensures forall i :: 0 <= i < |PricingPlans()| ==> (PricingPlans()[i].popular <==> PricingPlans()[i].name == "Pro")
  {
  }

  const RegisterPath := "/register"
  const DashboardPath := "/dashboard"
  const CheckoutPath := "/checkout"
  const SalesMail := "mailto:sales@talentlink.example.com"

  /** Where a plan button leads: a route of the app or a window opened on a URL. */
  datatype PlanAction = Navigate(path: string) | OpenWindow(url: string)

  /** The action of `handleSelectPlan`: a visitor is sent to register, a seeker to the
      dashboard, and an employer to the sales mail for Enterprise and to checkout for any
      other plan. */
  function PlanDestination(user: Option<User>, planName: string): (a: PlanAction)
    ensures a == Navigate(RegisterPath) <==> user.None?
    ensures a == Navigate(DashboardPath) <==> user.Some? && user.value.userType.Seeker?
    ensures a == OpenWindow(SalesMail) <==>
      user.Some? && user.value.userType.Employer? && planName == "Enterprise"
    ensures a == Navigate(CheckoutPath) <==>
      user.Some? && user.value.userType.Employer? && planName != "Enterprise"
  {
    if user.None? then Navigate(RegisterPath)
    else if user.value.userType.Seeker? then Navigate(DashboardPath)
    else if planName == "Enterprise" then OpenWindow(SalesMail)
    else Navigate(CheckoutPath)
  }

  /** An employer's three buttons: Basic and Pro go to checkout, Enterprise opens the mail. */
  lemma EmployerButtons(employer: User)
    requires employer.userType.Employer?
    ensures PlanDestination(Some(employer), PricingPlans()[0].name) == Navigate(CheckoutPath)
    ensures PlanDestination(Some(employer), PricingPlans()[1].name) == Navigate(CheckoutPath)
    ensures PlanDestination(Some(employer), PricingPlans()[2].name) == OpenWindow(SalesMail)
  {
  }

  class PricingPage {
    var selectedPlan: Option<string>

    constructor ()
      ensures selectedPlan.None?
    {
      selectedPlan := None;
    }

    /** `handleSelectPlan`: the plan is recorded only for an authenticated user who is not
        a seeker, and the action is the plan's destination. */
    method SelectPlan(user: Option<User>, planName: string) returns (action: PlanAction)
      modifies this
      ensures action == PlanDestination(user, planName)
      ensures user.None? || user.value.userType.Seeker? ==> selectedPlan == old(selectedPlan)
      ensures user.Some? && user.value.userType.Employer? ==> selectedPlan == Some(planName)
    {
      if user.None? {
        return Navigate(RegisterPath);
      }
      if user.value.userType.Seeker? {
        return Navigate(DashboardPath);
      }
      selectedPlan := Some(planName);
      if planName == "Enterprise" {
        action := OpenWindow(SalesMail);
      } else {
        action := Navigate(CheckoutPath);
      }
    }
  }
}
