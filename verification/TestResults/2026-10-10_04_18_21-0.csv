TestResult.DisplayName,TestResult.Outcome,TestResult.Duration,TestResult.ResourceCount,RandomSeed
ExtensionOrders.DigitRunOf (well-formedness),Passed,00:00:00.1207869,16759,3
ExtensionOrders.DigitRunOf (correctness),Passed,00:00:00.1078519,54069,3
