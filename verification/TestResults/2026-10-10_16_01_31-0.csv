TestResult.DisplayName,TestResult.Outcome,TestResult.Duration,TestResult.ResourceCount,RandomSeed
UsersQuery.NonCanonicalEntries (correctness),Failed,00:06:11.4957441,8075024,2
UsersQuery.NonCanonicalEntriesFallBack (correctness),Passed,00:00:00.3333619,177197,2
